/** Scoring (src/modules/scoring/compute.ts) over the matrices that src/modules/scoring/schema.ts accepts. */
module Scoring {
  import opened Prelude
  import opened Conditions
  import opened Sorting
  import opened RuleEngine

  datatype FactorKey = ControlEffectiveness | Impact | Severity | Likelihood | Duration | RegulatorySensitivity

  /** One entry per factor. */
  datatype PerFactor<+T> = PerFactor(
    controlEffectiveness: T, impact: T, severity: T, likelihood: T, duration: T, regulatorySensitivity: T)
  {
    function At(k: FactorKey): T {
      match k
      case ControlEffectiveness => controlEffectiveness
      case Impact => impact
      case Severity => severity
      case Likelihood => likelihood
      case Duration => duration
      case RegulatorySensitivity => regulatorySensitivity
    }
  }

  datatype Mapping = Mapping(when: Condition, value: real)

  datatype Factor = Factor(weight: real, min: real, max: real, mapping: seq<Mapping>)

  datatype Band = Band(min: int, max: int)

  datatype Bands = Bands(monitorOnly: Band, risk: Band, elevatedRisk: Band, issue: Band)
  {
    function At(c: Classification): Band {
      match c
      case MonitorOnly => monitorOnly
      case Risk => risk
      case ElevatedRisk => elevatedRisk
      case Issue => issue
    }
  }

  datatype Matrix = Matrix(
    factors: PerFactor<Factor>, thresholds: Bands, professionalConsultBelow: real, mandatoryReviewBelow: real)

  datatype Trace = Trace(value: real, matchedMapping: Option<nat>, weight: real, contribution: real)

  function Round(x: real): int {
    (x + 0.5).Floor
  }

  // ----- what the schema demands of a matrix

  predicate ValidFactor(f: Factor) {
    && 0.0 <= f.weight <= 100.0
    && f.min < f.max
    && forall m | m in f.mapping :: f.min <= m.value <= f.max
  }

  function WeightSum(fs: PerFactor<Factor>): real {
    fs.controlEffectiveness.weight + fs.impact.weight + fs.severity.weight
    + fs.likelihood.weight + fs.duration.weight + fs.regulatorySensitivity.weight
  }

  /** The four bands follow one another from 0 to 100. */
  predicate Contiguous(b: Bands) {
    && b.monitorOnly.min == 0
    && b.monitorOnly.min <= b.monitorOnly.max
    && b.risk.min == b.monitorOnly.max + 1 <= b.risk.max
    && b.elevatedRisk.min == b.risk.max + 1 <= b.elevatedRisk.max
    && b.issue.min == b.elevatedRisk.max + 1 <= b.issue.max
    && b.issue.max == 100
  }

  predicate ValidMatrix(m: Matrix) {
    && (forall k: FactorKey :: ValidFactor(m.factors.At(k)))
    && Round(WeightSum(m.factors) * 100.0) == 10000
    && Contiguous(m.thresholds)
  }

  // ----- factors

  /** The first mapping at or after `i` whose condition holds. */
  function FirstMatch(norm: Reading, mapping: seq<Mapping>, facts: Facts, i: nat): (r: Option<nat>)
    requires i <= |mapping|
    ensures r.Some? ==> i <= r.value < |mapping|
    decreases |mapping| - i
  {
    if i == |mapping| then None
    else if Matches(norm, mapping[i].when, facts) then Some(i)
    else FirstMatch(norm, mapping, facts, i + 1)
  }

  /** The mapping found is the first whose condition holds. */
  lemma {:induction false} FirstMatchIsFirst(norm: Reading, mapping: seq<Mapping>, facts: Facts, i: nat)
    requires i <= |mapping|
    ensures var r := FirstMatch(norm, mapping, facts, i);
            && (r.Some? ==> Matches(norm, mapping[r.value].when, facts))
            && forall j | i <= j < |mapping| && (r.None? || j < r.value) :: !Matches(norm, mapping[j].when, facts)
    decreases |mapping| - i
  {
    if i < |mapping| && !Matches(norm, mapping[i].when, facts) {
      FirstMatchIsFirst(norm, mapping, facts, i + 1);
    }
  }

  /** The part of the weight `w` that a value `a` points above the minimum earns on a scale `b` points long. */
  function Share(w: real, a: real, b: real): real
    requires b != 0.0
  {
    w * (a / b)
  }

  function TraceOf(norm: Reading, f: Factor, facts: Facts): Trace
    requires f.min < f.max
  {
    var hit := FirstMatch(norm, f.mapping, facts, 0);
    var value := if hit.Some? then f.mapping[hit.value].value else f.min;
    Trace(value, hit, f.weight, Share(f.weight, value - f.min, f.max - f.min))
  }

  method ComputeFactor(norm: Reading, f: Factor, facts: Facts) returns (t: Trace)
    requires f.min < f.max
    ensures t == TraceOf(norm, f, facts)
  {
    var value, matched := f.min, None;
    var i := 0;
    while i < |f.mapping|
      invariant 0 <= i <= |f.mapping|
      invariant value == f.min && matched == None
      invariant FirstMatch(norm, f.mapping, facts, 0) == FirstMatch(norm, f.mapping, facts, i)
    {
      if Matches(norm, f.mapping[i].when, facts) {
        value, matched := f.mapping[i].value, Some(i);
        break;
      }
      i := i + 1;
    }
    var normalized := (value - f.min) / (f.max - f.min);
    t := Trace(value, matched, f.weight, f.weight * normalized);
  }

  function TracesOf(norm: Reading, m: Matrix, facts: Facts): (t: PerFactor<Trace>)
    requires forall k: FactorKey :: m.factors.At(k).min < m.factors.At(k).max
    ensures forall k: FactorKey :: t.At(k) == TraceOf(norm, m.factors.At(k), facts)
  {
    PerFactor(
      TraceOf(norm, m.factors.At(ControlEffectiveness), facts), TraceOf(norm, m.factors.At(Impact), facts),
      TraceOf(norm, m.factors.At(Severity), facts), TraceOf(norm, m.factors.At(Likelihood), facts),
      TraceOf(norm, m.factors.At(Duration), facts), TraceOf(norm, m.factors.At(RegulatorySensitivity), facts))
  }

  function RawScore(t: PerFactor<Trace>): real {
    t.controlEffectiveness.contribution + t.impact.contribution + t.severity.contribution
    + t.likelihood.contribution + t.duration.contribution + t.regulatorySensitivity.contribution
  }

  function ComputeScore(t: PerFactor<Trace>): int {
    var rounded := Round(RawScore(t));
    var capped := if rounded < 100 then rounded else 100;
    if capped > 0 then capped else 0
  }

  predicate InBand(b: Band, score: int) {
    b.min <= score <= b.max
  }

  function Classify(b: Bands, score: int): Classification {
    if InBand(b.monitorOnly, score) then MonitorOnly
    else if InBand(b.risk, score) then Risk
    else if InBand(b.elevatedRisk, score) then ElevatedRisk
    else Issue
  }

  // ----- confidence

  function Total(keys: seq<string>, confidences: map<string, real>): real {
    if keys == [] then 0.0
    else (if keys[0] in confidences then confidences[keys[0]] else 1.0) + Total(keys[1..], confidences)
  }

  /** `keys` lists the facts' keys, as `Object.keys` does. */
  function ComputeConfidence(keys: seq<string>, facts: Facts, required: seq<string>,
                             confidences: map<string, real>): int
  {
    var here := (k: string) => Captured(facts, k);
    var coverage := if required == [] then 1.0 else |Filter(here, required)| as real / |required| as real;
    var held := Filter(here, keys);
    var mean := if held == [] then 0.0 else Total(held, confidences) / |held| as real;
    Round((coverage * 0.7 + mean * 0.3) * 100.0)
  }

  lemma {:induction false} TotalBounded(keys: seq<string>, confidences: map<string, real>)
    requires forall k | k in confidences :: 0.0 <= confidences[k] <= 1.0
    ensures 0.0 <= Total(keys, confidences) <= |keys| as real
  {
    if keys != [] {
      TotalBounded(keys[1..], confidences);
    }
  }

  lemma RatioBounded(a: real, b: real)
    requires 0.0 <= a <= b && 0.0 < b
    ensures 0.0 <= a / b <= 1.0
  {}

  /** A percentage, whatever was extracted, as long as each confidence is one. */
  lemma ConfidenceIsAPercentage(keys: seq<string>, facts: Facts, required: seq<string>, confidences: map<string, real>)
    requires forall k | k in confidences :: 0.0 <= confidences[k] <= 1.0
    ensures 0 <= ComputeConfidence(keys, facts, required, confidences) <= 100
  {
    var here := (k: string) => Captured(facts, k);
    var held := Filter(here, keys);
    if required != [] {
      RatioBounded(|Filter(here, required)| as real, |required| as real);
    }
    if held != [] {
      TotalBounded(held, confidences);
      RatioBounded(Total(held, confidences), |held| as real);
    }
  }

  // ----- the whole computation

  datatype ScoreResult = ScoreResult(
    rule: Option<RuleResult>, score: int, factors: PerFactor<Trace>, classification: Classification,
    computedClassification: Classification, confidence: int,
    professionalConsult: bool, mandatoryReview: bool, errorReview: bool)

  function Simulate(norm: Reading, m: Matrix, rules: seq<Rule>, keys: seq<string>, facts: Facts,
                    required: seq<string>, confidences: map<string, real>): ScoreResult
    requires forall k: FactorKey :: m.factors.At(k).min < m.factors.At(k).max
  {
    var factors := TracesOf(norm, m, facts);
    var score := ComputeScore(factors);
    var computed := Classify(m.thresholds, score);
    var rule := Evaluate(norm, rules, facts);
    var confidence := ComputeConfidence(keys, facts, required, confidences);
    ScoreResult(
      rule, score, factors,
      if rule.Some? then rule.value.winner.forcedClassification else computed,
      computed, confidence,
      confidence as real < m.professionalConsultBelow, confidence as real < m.mandatoryReviewBelow,
      score == 0 && rule.None?)
  }

  // ----- properties

  lemma ContributionBounded(norm: Reading, f: Factor, facts: Facts)
    requires ValidFactor(f)
    ensures f.min <= TraceOf(norm, f, facts).value <= f.max
    ensures 0.0 <= TraceOf(norm, f, facts).contribution <= f.weight
  {
    var t := TraceOf(norm, f, facts);
    if t.matchedMapping.Some? {
      assert f.mapping[t.matchedMapping.value] in f.mapping;
    }
    ShareBounded(f.weight, t.value - f.min, f.max - f.min);
  }

  lemma ShareBounded(w: real, a: real, b: real)
    requires 0.0 <= w && 0.0 <= a <= b && 0.0 < b
    ensures 0.0 <= Share(w, a, b) <= w
  {}

  /** The weights only sum to 100 up to rounding, and still the clamp never acts. */
  lemma ScoreNeedsNoClamp(norm: Reading, m: Matrix, facts: Facts)
    requires ValidMatrix(m)
    ensures var t := TracesOf(norm, m, facts);
            0 <= Round(RawScore(t)) <= 100 && ComputeScore(t) == Round(RawScore(t))
  {
    forall k: FactorKey
      ensures 0.0 <= TraceOf(norm, m.factors.At(k), facts).contribution <= m.factors.At(k).weight
    {
      assert ValidFactor(m.factors.At(k));
      ContributionBounded(norm, m.factors.At(k), facts);
    }
    var t := TracesOf(norm, m, facts);
    assert t.At(ControlEffectiveness).contribution <= m.factors.At(ControlEffectiveness).weight;
    assert t.At(Impact).contribution <= m.factors.At(Impact).weight;
    assert t.At(Severity).contribution <= m.factors.At(Severity).weight;
    assert t.At(Likelihood).contribution <= m.factors.At(Likelihood).weight;
    assert t.At(Duration).contribution <= m.factors.At(Duration).weight;
    assert t.At(RegulatorySensitivity).contribution <= m.factors.At(RegulatorySensitivity).weight;
    assert 0.0 <= RawScore(t) <= WeightSum(m.factors);
  }

  /** Every score of a valid matrix lies in exactly one band, and that band is the one reported. */
  lemma BandsPartitionScores(b: Bands, score: int, c: Classification)
    requires Contiguous(b) && 0 <= score <= 100
    ensures InBand(b.At(c), score) <==> c == Classify(b, score)
  {}

  lemma SeverityFollowsScore(b: Bands, s: int, t: int)
    requires Contiguous(b) && 0 <= s <= t <= 100
    ensures SeverityRank(Classify(b, s)) <= SeverityRank(Classify(b, t))
  {}

  lemma ScaledMonotone(w: real, x: real, y: real, d: real)
    requires 0.0 <= w && x <= y && 0.0 < d
    ensures Share(w, x, d) <= Share(w, y, d)
  {}

  lemma ContributionMonotone(norm: Reading, q: Factor, f: Facts, g: Facts)
    requires ValidFactor(q)
    requires TraceOf(norm, q, f).value <= TraceOf(norm, q, g).value
    ensures TraceOf(norm, q, f).contribution <= TraceOf(norm, q, g).contribution
  {
    ScaledMonotone(q.weight, TraceOf(norm, q, f).value - q.min, TraceOf(norm, q, g).value - q.min, q.max - q.min);
  }

  lemma RawScoreMonotone(a: PerFactor<Trace>, b: PerFactor<Trace>)
    requires forall k: FactorKey :: a.At(k).contribution <= b.At(k).contribution
    ensures RawScore(a) <= RawScore(b)
  {
    assert a.At(ControlEffectiveness).contribution <= b.At(ControlEffectiveness).contribution;
    assert a.At(Impact).contribution <= b.At(Impact).contribution;
    assert a.At(Severity).contribution <= b.At(Severity).contribution;
    assert a.At(Likelihood).contribution <= b.At(Likelihood).contribution;
    assert a.At(Duration).contribution <= b.At(Duration).contribution;
    assert a.At(RegulatorySensitivity).contribution <= b.At(RegulatorySensitivity).contribution;
  }

  /** Facts that lower no factor's value never lower the computed severity. */
  lemma SeverityMonotoneInFactors(norm: Reading, m: Matrix, f: Facts, g: Facts)
    requires ValidMatrix(m)
    requires forall k: FactorKey :: TracesOf(norm, m, f).At(k).value <= TracesOf(norm, m, g).At(k).value
    ensures var s, t := ComputeScore(TracesOf(norm, m, f)), ComputeScore(TracesOf(norm, m, g));
            s <= t && SeverityRank(Classify(m.thresholds, s)) <= SeverityRank(Classify(m.thresholds, t))
  {
    var a, b := TracesOf(norm, m, f), TracesOf(norm, m, g);
    forall k: FactorKey ensures a.At(k).contribution <= b.At(k).contribution {
      assert a.At(k).value <= b.At(k).value;
      ContributionMonotone(norm, m.factors.At(k), f, g);
    }
    RawScoreMonotone(a, b);
    ScoreNeedsNoClamp(norm, m, f);
    ScoreNeedsNoClamp(norm, m, g);
    SeverityFollowsScore(m.thresholds, ComputeScore(a), ComputeScore(b));
  }

  function MappingKeys(f: Factor): set<string> {
    set p, k | p in f.mapping && k in FactKeysOf(p.when) :: k
  }

  function MatrixKeys(m: Matrix): set<string> {
    MappingKeys(m.factors.controlEffectiveness) + MappingKeys(m.factors.impact) + MappingKeys(m.factors.severity)
    + MappingKeys(m.factors.likelihood) + MappingKeys(m.factors.duration) + MappingKeys(m.factors.regulatorySensitivity)
  }

  lemma {:induction false} FirstMatchReadsOnlyItsKeys(norm: Reading, q: Factor, f: Facts, g: Facts, i: nat)
    requires i <= |q.mapping| && AgreeOn(f, g, MappingKeys(q))
    ensures FirstMatch(norm, q.mapping, f, i) == FirstMatch(norm, q.mapping, g, i)
    decreases |q.mapping| - i
  {
    if i < |q.mapping| {
      forall k | k in FactKeysOf(q.mapping[i].when) ensures Lookup(f, k) == Lookup(g, k) {
        assert q.mapping[i] in q.mapping && k in MappingKeys(q);
      }
      MatchesReadsOnlyItsKeys(norm, q.mapping[i].when, f, g);
      FirstMatchReadsOnlyItsKeys(norm, q, f, g, i + 1);
    }
  }

  lemma TraceReadsOnlyItsKeys(norm: Reading, q: Factor, f: Facts, g: Facts, keys: set<string>)
    requires q.min < q.max && MappingKeys(q) <= keys && AgreeOn(f, g, keys)
    ensures TraceOf(norm, q, f) == TraceOf(norm, q, g)
  {
    FirstMatchReadsOnlyItsKeys(norm, q, f, g, 0);
  }

  lemma KeysOfFactor(m: Matrix, k: FactorKey)
    ensures MappingKeys(m.factors.At(k)) <= MatrixKeys(m)
  {}

  lemma TracesReadOnlyMatrixKeys(norm: Reading, m: Matrix, f: Facts, g: Facts)
    requires forall k: FactorKey :: m.factors.At(k).min < m.factors.At(k).max
    requires AgreeOn(f, g, MatrixKeys(m))
    ensures TracesOf(norm, m, f) == TracesOf(norm, m, g)
  {
    var keys := MatrixKeys(m);
    forall k: FactorKey
      ensures TraceOf(norm, m.factors.At(k), f) == TraceOf(norm, m.factors.At(k), g)
    {
      KeysOfFactor(m, k);
      TraceReadsOnlyItsKeys(norm, m.factors.At(k), f, g, keys);
    }
  }

  /** The outcome depends on neither the order of the rules nor any fact that no condition names. */
  lemma OutcomeIsDetermined(norm: Reading, m: Matrix, a: seq<Rule>, b: seq<Rule>, f: Facts, g: Facts,
                            fKeys: seq<string>, gKeys: seq<string>, required: seq<string>,
                            fConf: map<string, real>, gConf: map<string, real>)
    requires ValidMatrix(m) && multiset(a) == multiset(b)
    requires AgreeOn(f, g, MatrixKeys(m) + TriggerKeys(a))
    ensures var x := Simulate(norm, m, a, fKeys, f, required, fConf);
            var y := Simulate(norm, m, b, gKeys, g, required, gConf);
            && x.score == y.score && x.factors == y.factors && x.classification == y.classification
            && x.computedClassification == y.computedClassification && x.errorReview == y.errorReview
  {
    TracesReadOnlyMatrixKeys(norm, m, f, g);
    RulesReadOnlyTheirKeys(norm, a, f, g);
    OrderOfRulesIsIrrelevant(norm, a, b, g);
  }

  // ----- what the numbers mean

  lemma RoundMeans(x: real, n: int)
    ensures Round(x) == n <==> n as real - 0.5 <= x < n as real + 0.5
  {}

  lemma ShareMeans(w: real, a: real, b: real)
    requires b != 0.0
    ensures Share(w, a, b) * b == w * a
  {
    assert (a / b) * b == a;
    assert (w * (a / b)) * b == w * ((a / b) * b);
  }

  /** A factor's value is that of the first mapping that holds, or the minimum, and earns its part of the weight. */
  ghost predicate Earned(norm: Reading, f: Factor, facts: Facts, t: Trace) {
    && t.weight == f.weight && t.contribution * (f.max - f.min) == f.weight * (t.value - f.min)
    && match t.matchedMapping
       case None => t.value == f.min && forall m :: m in f.mapping ==> !Matches(norm, m.when, facts)
       case Some(i) =>
         && i < |f.mapping| && t.value == f.mapping[i].value && Matches(norm, f.mapping[i].when, facts)
         && forall j :: 0 <= j < i ==> !Matches(norm, f.mapping[j].when, facts)
  }

  lemma TraceMeans(norm: Reading, f: Factor, facts: Facts)
    requires f.min < f.max
    ensures Earned(norm, f, facts, TraceOf(norm, f, facts))
  {
    FirstMatchIsFirst(norm, f.mapping, facts, 0);
    ShareMeans(f.weight, TraceOf(norm, f, facts).value - f.min, f.max - f.min);
  }

  lemma TracesByName(norm: Reading, m: Matrix, facts: Facts)
    requires forall k: FactorKey :: m.factors.At(k).min < m.factors.At(k).max
    ensures var t, fs := TracesOf(norm, m, facts), m.factors;
            && fs.controlEffectiveness.min < fs.controlEffectiveness.max && fs.impact.min < fs.impact.max
            && fs.severity.min < fs.severity.max && fs.likelihood.min < fs.likelihood.max
            && fs.duration.min < fs.duration.max && fs.regulatorySensitivity.min < fs.regulatorySensitivity.max
            && t.controlEffectiveness == TraceOf(norm, fs.controlEffectiveness, facts)
            && t.impact == TraceOf(norm, fs.impact, facts) && t.severity == TraceOf(norm, fs.severity, facts)
            && t.likelihood == TraceOf(norm, fs.likelihood, facts) && t.duration == TraceOf(norm, fs.duration, facts)
            && t.regulatorySensitivity == TraceOf(norm, fs.regulatorySensitivity, facts)
  {
    assert m.factors.At(ControlEffectiveness).min < m.factors.At(ControlEffectiveness).max;
    assert m.factors.At(Impact).min < m.factors.At(Impact).max;
    assert m.factors.At(Severity).min < m.factors.At(Severity).max;
    assert m.factors.At(Likelihood).min < m.factors.At(Likelihood).max;
    assert m.factors.At(Duration).min < m.factors.At(Duration).max;
    assert m.factors.At(RegulatorySensitivity).min < m.factors.At(RegulatorySensitivity).max;
  }

  /** The score is what the six factors earn together, to the nearest whole point, halves upwards. */
  ghost predicate SumsTo(t: PerFactor<Trace>, score: int) {
    score as real - 0.5
      <= t.controlEffectiveness.contribution + t.impact.contribution + t.severity.contribution
         + t.likelihood.contribution + t.duration.contribution + t.regulatorySensitivity.contribution
      < score as real + 0.5
  }

  lemma ScoreMeans(norm: Reading, m: Matrix, facts: Facts)
    requires ValidMatrix(m)
    ensures var t := TracesOf(norm, m, facts); 0 <= ComputeScore(t) <= 100 && SumsTo(t, ComputeScore(t))
  {
    var t := TracesOf(norm, m, facts);
    ScoreNeedsNoClamp(norm, m, facts);
    RoundMeans(RawScore(t), ComputeScore(t));
  }

  /** How many of the keys have a fact, and what the confidences of those add up to. */
  ghost function Present(keys: seq<string>, facts: Facts): nat {
    if keys == [] then 0
    else Present(keys[..|keys| - 1], facts) + if Captured(facts, keys[|keys| - 1]) then 1 else 0
  }

  ghost function Trust(keys: seq<string>, facts: Facts, confidences: map<string, real>): real {
    if keys == [] then 0.0
    else
      var k := keys[|keys| - 1];
      Trust(keys[..|keys| - 1], facts, confidences)
      + if !Captured(facts, k) then 0.0 else if k in confidences then confidences[k] else 1.0
  }

  lemma {:induction false} PresentFirst(keys: seq<string>, facts: Facts)
    requires keys != []
    ensures Present(keys, facts) == (if Captured(facts, keys[0]) then 1 else 0) + Present(keys[1..], facts)
  {
    if |keys| > 1 {
      PresentFirst(keys[..|keys| - 1], facts);
      assert keys[..|keys| - 1][1..] == keys[1..][..|keys[1..]| - 1];
    }
  }

  lemma {:induction false} TrustFirst(keys: seq<string>, facts: Facts, confidences: map<string, real>)
    requires keys != []
    ensures Trust(keys, facts, confidences)
            == (if !Captured(facts, keys[0]) then 0.0 else if keys[0] in confidences then confidences[keys[0]] else 1.0)
               + Trust(keys[1..], facts, confidences)
  {
    if |keys| > 1 {
      TrustFirst(keys[..|keys| - 1], facts, confidences);
      assert keys[..|keys| - 1][1..] == keys[1..][..|keys[1..]| - 1];
    }
  }

  lemma {:induction false} HeldMeans(keys: seq<string>, facts: Facts, confidences: map<string, real>)
    ensures var held := Filter((k: string) => Captured(facts, k), keys);
            |held| == Present(keys, facts) && Total(held, confidences) == Trust(keys, facts, confidences)
  {
    if keys != [] {
      HeldMeans(keys[1..], facts, confidences);
      PresentFirst(keys, facts);
      TrustFirst(keys, facts, confidences);
      var here := (k: string) => Captured(facts, k);
      var held, rest := Filter(here, keys), Filter(here, keys[1..]);
      if Captured(facts, keys[0]) {
        assert held == [keys[0]] + rest && held[1..] == rest;
      } else {
        assert held == rest;
      }
    }
  }

  /** `part` is how much of `whole` there is, and `otherwise` where the whole is nothing. */
  ghost predicate IsShare(part: real, whole: real, share: real, otherwise: real) {
    if whole == 0.0 then share == otherwise else share * whole == part
  }

  lemma QuotientIsShare(part: real, whole: real, otherwise: real)
    requires whole != 0.0
    ensures IsShare(part, whole, part / whole, otherwise)
  {}

  lemma CoverageMeans(facts: Facts, required: seq<string>) returns (coverage: real)
    ensures coverage
            == if required == [] then 1.0
               else |Filter((k: string) => Captured(facts, k), required)| as real / |required| as real
    ensures IsShare(Present(required, facts) as real, |required| as real, coverage, 1.0)
  {
    HeldMeans(required, facts, map[]);
    if required == [] {
      coverage := 1.0;
    } else {
      coverage := |Filter((k: string) => Captured(facts, k), required)| as real / |required| as real;
      QuotientIsShare(Present(required, facts) as real, |required| as real, 1.0);
    }
  }

  lemma MeanMeans(keys: seq<string>, facts: Facts, confidences: map<string, real>) returns (mean: real)
    ensures var held := Filter((k: string) => Captured(facts, k), keys);
            mean == if held == [] then 0.0 else Total(held, confidences) / |held| as real
    ensures IsShare(Trust(keys, facts, confidences), Present(keys, facts) as real, mean, 0.0)
  {
    HeldMeans(keys, facts, confidences);
    var held := Filter((k: string) => Captured(facts, k), keys);
    if held == [] {
      mean := 0.0;
    } else {
      mean := Total(held, confidences) / |held| as real;
      QuotientIsShare(Trust(keys, facts, confidences), Present(keys, facts) as real, 0.0);
    }
  }

  /**
   * Confidence is seven tenths the share of the required facts that are there, all of them when none is required, and
   * three tenths the mean confidence of the facts that are there, none when there are none; as a whole percentage.
   */
  lemma ConfidenceMeans(keys: seq<string>, facts: Facts, required: seq<string>, confidences: map<string, real>)
    returns (coverage: real, mean: real)
    ensures IsShare(Present(required, facts) as real, |required| as real, coverage, 1.0)
    ensures IsShare(Trust(keys, facts, confidences), Present(keys, facts) as real, mean, 0.0)
    ensures var c := ComputeConfidence(keys, facts, required, confidences);
            c as real - 0.5 <= (coverage * 0.7 + mean * 0.3) * 100.0 < c as real + 0.5
  {
    coverage := CoverageMeans(facts, required);
    mean := MeanMeans(keys, facts, confidences);
    var c := ComputeConfidence(keys, facts, required, confidences);
    assert c == Round((coverage * 0.7 + mean * 0.3) * 100.0);
    RoundMeans((coverage * 0.7 + mean * 0.3) * 100.0, c);
  }

  /** What each part of a result is, and on what it rests. */
  lemma SimulateMeans(norm: Reading, m: Matrix, rules: seq<Rule>, keys: seq<string>, facts: Facts,
                      required: seq<string>, confidences: map<string, real>)
    requires ValidMatrix(m)
    ensures var r := Simulate(norm, m, rules, keys, facts, required, confidences);
            && r.factors == TracesOf(norm, m, facts) && 0 <= r.score <= 100 && SumsTo(r.factors, r.score)
            && (forall c :: InBand(m.thresholds.At(c), r.score) <==> c == r.computedClassification)
            && (r.rule.Some? <==> exists x :: x in rules && Matches(norm, x.trigger, facts))
            && (r.rule.None? ==> r.classification == r.computedClassification)
            && (forall w :: Best(norm, rules, facts, w) ==> r.classification == w.forcedClassification)
            && r.confidence == ComputeConfidence(keys, facts, required, confidences)
            && (r.professionalConsult <==> r.confidence as real < m.professionalConsultBelow)
            && (r.mandatoryReview <==> r.confidence as real < m.mandatoryReviewBelow)
            && (r.errorReview <==> r.score == 0 && r.rule.None?)
  {
    var r := Simulate(norm, m, rules, keys, facts, required, confidences);
    ScoreMeans(norm, m, facts);
    forall c ensures InBand(m.thresholds.At(c), r.score) <==> c == r.computedClassification {
      BandsPartitionScores(m.thresholds, r.score, c);
    }
    NothingFires(norm, rules, facts);
    if r.rule.Some? {
      WinnerIsBest(norm, rules, facts);
      forall w | Best(norm, rules, facts, w) ensures r.classification == w.forcedClassification {
        BestRulesAgree(norm, rules, rules, facts, r.rule.value.winner, w);
      }
    }
  }
}
