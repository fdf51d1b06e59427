/** Deterministic risk scoring and the human-in-the-loop (HITL) level. */
module Risk {
  import opened Wrappers
  import opened Numbers

  datatype Severity = Low | Medium | High

  datatype Rule = Rule(below: int, minimumLevel: int)

  datatype Config = Config(
    low: int, medium: int, high: int,
    defaultConfidence: int, rules: seq<Rule>,
    highConfidenceBelow: int, highMinimum: int,
    staticMarginHigh: real, driftZHigh: real, mediumFraction: real)

  /** The two scores one flagged sensor carries in the anomaly summary. */
  datatype SensorScore = SensorScore(staticMargin: Option<real>, driftZ: Option<real>)

  function Base(cfg: Config, severity: Severity): int {
    match severity
    case Low => cfg.low
    case Medium => cfg.medium
    case High => cfg.high
  }

  function Confidence(cfg: Config, confidence: Option<int>): int {
    if confidence.Some? then confidence.value else cfg.defaultConfidence
  }

  // ---------------------------------------------------------------- level

  function RuleFloor(rules: seq<Rule>, conf: int): (floor: int)
    ensures floor >= 1
  {
    if rules == [] then 1
    else
      var rest := RuleFloor(rules[..|rules| - 1], conf);
      var rule := rules[|rules| - 1];
      if conf < rule.below then Max(rest, rule.minimumLevel) else rest
  }

  function Level(cfg: Config, severity: Severity, confidence: Option<int>): (level: int)
    ensures level >= 1
  {
    var conf := Confidence(cfg, confidence);
    var floor := RuleFloor(cfg.rules, conf);
    Max(Base(cfg, severity),
        if severity == High && conf < cfg.highConfidenceBelow then Max(floor, cfg.highMinimum) else floor)
  }

  method HitlLevelFor(severity: Severity, confidence: Option<int>, cfg: Config) returns (level: int)
    ensures level == Level(cfg, severity, confidence) && IsGreatestDemanded(cfg, severity, confidence, level)
  {
    LevelIsGreatestDemanded(cfg, severity, confidence);
    var base := Base(cfg, severity);
    var conf := if confidence.Some? then confidence.value else cfg.defaultConfidence;
    var floor := 1;
    for i := 0 to |cfg.rules|
      invariant floor == RuleFloor(cfg.rules[..i], conf)
    {
      assert cfg.rules[..i + 1][..i] == cfg.rules[..i];
      if conf < cfg.rules[i].below {
        floor := Max(floor, cfg.rules[i].minimumLevel);
      }
    }
    assert cfg.rules[..|cfg.rules|] == cfg.rules;
    if severity == High && conf < cfg.highConfidenceBelow {
      floor := Max(floor, cfg.highMinimum);
    }
    level := Max(base, floor);
  }

  /** The confidence, or the configured one when there is none, lies below the limit. */
  ghost predicate Doubtful(cfg: Config, confidence: Option<int>, limit: int) {
    match confidence
    case Some(c) => c < limit
    case None => cfg.defaultConfidence < limit
  }

  /** The levels the configuration demands for one severity and confidence. */
  ghost predicate Demanded(cfg: Config, severity: Severity, confidence: Option<int>, level: int) {
    || level == 1
    || (severity == Low && level == cfg.low)
    || (severity == Medium && level == cfg.medium)
    || (severity == High && level == cfg.high)
    || (exists k :: 0 <= k < |cfg.rules| && Doubtful(cfg, confidence, cfg.rules[k].below) && level == cfg.rules[k].minimumLevel)
    || (severity == High && Doubtful(cfg, confidence, cfg.highConfidenceBelow) && level == cfg.highMinimum)
  }

  /** The greatest of them. */
  ghost predicate IsGreatestDemanded(cfg: Config, severity: Severity, confidence: Option<int>, level: int) {
    && Demanded(cfg, severity, confidence, level)
    && forall l :: Demanded(cfg, severity, confidence, l) ==> l <= level
  }

  lemma {:induction false} RuleFloorIsGreatest(rules: seq<Rule>, conf: int)
    ensures forall k :: 0 <= k < |rules| && conf < rules[k].below ==> rules[k].minimumLevel <= RuleFloor(rules, conf)
    ensures RuleFloor(rules, conf) == 1
         || exists k :: 0 <= k < |rules| && conf < rules[k].below && RuleFloor(rules, conf) == rules[k].minimumLevel
  {
    if rules != [] {
      var front := rules[..|rules| - 1];
      RuleFloorIsGreatest(front, conf);
      assert forall k :: 0 <= k < |front| ==> front[k] == rules[k];
      var rule := rules[|rules| - 1];
      if RuleFloor(rules, conf) == RuleFloor(front, conf) != 1 {
        var k :| 0 <= k < |front| && conf < front[k].below && RuleFloor(front, conf) == front[k].minimumLevel;
        assert rules[k] == front[k];
      }
    }
  }

  /** The level is the greatest demanded one: nothing demanded is lost, nothing undemanded appears. */
  lemma LevelIsGreatestDemanded(cfg: Config, severity: Severity, confidence: Option<int>)
    ensures IsGreatestDemanded(cfg, severity, confidence, Level(cfg, severity, confidence))
  {
    RuleFloorIsGreatest(cfg.rules, Confidence(cfg, confidence));
  }

  // ---------------------------------------------------------------- severity

  function Scaled(score: Option<real>, threshold: real): real
    requires threshold > 0.0
  {
    if score.Some? then score.value / threshold else 0.0
  }

  ghost predicate Usable(cfg: Config) {
    cfg.staticMarginHigh > 0.0 && cfg.driftZHigh > 0.0
  }

  function Worst(sensors: seq<SensorScore>, marginHigh: real, zHigh: real): (worst: real)
    requires marginHigh > 0.0 && zHigh > 0.0
    ensures worst >= 0.0
  {
    if sensors == [] then 0.0
    else
      var last := sensors[|sensors| - 1];
      MaxReal(MaxReal(Worst(sensors[..|sensors| - 1], marginHigh, zHigh), Scaled(last.staticMargin, marginHigh)),
              Scaled(last.driftZ, zHigh))
  }

  function Graded(worst: real, mediumFraction: real): Severity {
    if worst >= 1.0 then High else if worst >= mediumFraction then Medium else Low
  }

  function SeverityOf(cfg: Config, sensors: seq<SensorScore>): Severity
    requires Usable(cfg)
  {
    Graded(Worst(sensors, cfg.staticMarginHigh, cfg.driftZHigh), cfg.mediumFraction)
  }

  /** Some sensor scores at least this fraction of what makes an incident high. */
  ghost predicate Reaches(cfg: Config, sensors: seq<SensorScore>, fraction: real) {
    exists s :: s in sensors && SensorReaches(cfg, s, fraction)
  }

  predicate SensorReaches(cfg: Config, s: SensorScore, fraction: real) {
    || (s.staticMargin.Some? && s.staticMargin.value >= fraction * cfg.staticMarginHigh)
    || (s.driftZ.Some? && s.driftZ.value >= fraction * cfg.driftZHigh)
  }

  lemma RatioReaches(score: real, threshold: real, fraction: real)
    requires threshold > 0.0
    ensures score / threshold >= fraction <==> score >= fraction * threshold
  {
    var x := score / threshold;
    assert x * threshold == score;
    if x >= fraction { assert (x - fraction) * threshold >= 0.0; }
    if x < fraction { assert (fraction - x) * threshold > 0.0; }
  }

  lemma SensorReachesIff(cfg: Config, s: SensorScore, fraction: real)
    requires Usable(cfg) && fraction > 0.0
    ensures SensorReaches(cfg, s, fraction)
      <==> Scaled(s.staticMargin, cfg.staticMarginHigh) >= fraction || Scaled(s.driftZ, cfg.driftZHigh) >= fraction
  {
    if s.staticMargin.Some? { RatioReaches(s.staticMargin.value, cfg.staticMarginHigh, fraction); }
    if s.driftZ.Some? { RatioReaches(s.driftZ.value, cfg.driftZHigh, fraction); }
  }

  lemma {:induction false} WorstReaches(cfg: Config, sensors: seq<SensorScore>, fraction: real)
    requires Usable(cfg) && fraction > 0.0
    ensures Worst(sensors, cfg.staticMarginHigh, cfg.driftZHigh) >= fraction <==> Reaches(cfg, sensors, fraction)
  {
    if sensors != [] {
      var front, last := sensors[..|sensors| - 1], sensors[|sensors| - 1];
      assert sensors == front + [last];
      WorstReaches(cfg, front, fraction);
      SensorReachesIff(cfg, last, fraction);
    }
  }

  /** High when a sensor reaches its threshold, medium when one reaches the medium fraction of it (or that is not
      positive), and low otherwise. */
  ghost predicate GradedBySensors(cfg: Config, sensors: seq<SensorScore>, severity: Severity) {
    var high := Reaches(cfg, sensors, 1.0);
    var medium := cfg.mediumFraction <= 0.0 || Reaches(cfg, sensors, cfg.mediumFraction);
    severity == if high then High else if medium then Medium else Low
  }

  lemma SeverityGrades(cfg: Config, sensors: seq<SensorScore>)
    requires Usable(cfg)
    ensures GradedBySensors(cfg, sensors, SeverityOf(cfg, sensors))
  {
    WorstReaches(cfg, sensors, 1.0);
    if cfg.mediumFraction > 0.0 { WorstReaches(cfg, sensors, cfg.mediumFraction); }
  }

  method SeverityFrom(sensors: seq<SensorScore>, cfg: Config) returns (severity: Severity)
    requires Usable(cfg)
    ensures severity == SeverityOf(cfg, sensors) && GradedBySensors(cfg, sensors, severity)
  {
    var worst := 0.0;
    for i := 0 to |sensors|
      invariant worst == Worst(sensors[..i], cfg.staticMarginHigh, cfg.driftZHigh)
    {
      assert sensors[..i + 1][..i] == sensors[..i];
      var s := sensors[i];
      if s.staticMargin.Some? {
        worst := MaxReal(worst, s.staticMargin.value / cfg.staticMarginHigh);
      }
      if s.driftZ.Some? {
        worst := MaxReal(worst, s.driftZ.value / cfg.driftZHigh);
      }
    }
    assert sensors[..|sensors|] == sensors;
    SeverityGrades(cfg, sensors);
    if worst >= 1.0 { return High; }
    if worst >= cfg.mediumFraction { return Medium; }
    return Low;
  }

  // ---------------------------------------------------------------- monotonicity

  /** Every score in `a` is matched by one at least as bad in `b`. */
  ghost predicate NoWorseThan(a: seq<SensorScore>, b: seq<SensorScore>) {
    && (forall x :: x in a && x.staticMargin.Some? ==>
        exists y :: y in b && y.staticMargin.Some? && x.staticMargin.value <= y.staticMargin.value)
    && (forall x :: x in a && x.driftZ.Some? ==>
        exists y :: y in b && y.driftZ.Some? && x.driftZ.value <= y.driftZ.value)
  }

  ghost predicate Bounds(bound: real, s: SensorScore, marginHigh: real, zHigh: real)
    requires marginHigh > 0.0 && zHigh > 0.0
  {
    Scaled(s.staticMargin, marginHigh) <= bound && Scaled(s.driftZ, zHigh) <= bound
  }

  lemma {:induction false} WorstBoundsAll(sensors: seq<SensorScore>, marginHigh: real, zHigh: real)
    requires marginHigh > 0.0 && zHigh > 0.0
    ensures forall s :: s in sensors ==> Bounds(Worst(sensors, marginHigh, zHigh), s, marginHigh, zHigh)
  {
    if sensors != [] {
      WorstBoundsAll(sensors[..|sensors| - 1], marginHigh, zHigh);
      assert sensors == sensors[..|sensors| - 1] + [sensors[|sensors| - 1]];
    }
  }

  lemma {:induction false} WorstIsLeastBound(sensors: seq<SensorScore>, marginHigh: real, zHigh: real, bound: real)
    requires marginHigh > 0.0 && zHigh > 0.0 && bound >= 0.0
    requires forall s :: s in sensors ==> Bounds(bound, s, marginHigh, zHigh)
    ensures Worst(sensors, marginHigh, zHigh) <= bound
  {
    if sensors != [] {
      var last := sensors[|sensors| - 1];
      assert last in sensors;
      WorstIsLeastBound(sensors[..|sensors| - 1], marginHigh, zHigh, bound);
    }
  }

  lemma ScaledMonotone(x: real, y: real, threshold: real)
    requires threshold > 0.0 && x <= y
    ensures x / threshold <= y / threshold
  {
  }

  lemma WorstMonotone(a: seq<SensorScore>, b: seq<SensorScore>, marginHigh: real, zHigh: real)
    requires marginHigh > 0.0 && zHigh > 0.0 && NoWorseThan(a, b)
    ensures Worst(a, marginHigh, zHigh) <= Worst(b, marginHigh, zHigh)
  {
    var bound := Worst(b, marginHigh, zHigh);
    WorstBoundsAll(b, marginHigh, zHigh);
    forall x | x in a ensures Bounds(bound, x, marginHigh, zHigh) {
      if x.staticMargin.Some? {
        var y :| y in b && y.staticMargin.Some? && x.staticMargin.value <= y.staticMargin.value;
        ScaledMonotone(x.staticMargin.value, y.staticMargin.value, marginHigh);
        assert Bounds(bound, y, marginHigh, zHigh);
      }
      if x.driftZ.Some? {
        var y :| y in b && y.driftZ.Some? && x.driftZ.value <= y.driftZ.value;
        ScaledMonotone(x.driftZ.value, y.driftZ.value, zHigh);
        assert Bounds(bound, y, marginHigh, zHigh);
      }
    }
    WorstIsLeastBound(a, marginHigh, zHigh, bound);
  }

  lemma {:induction false} RuleFloorMonotone(rules: seq<Rule>, conf: int, lower: int)
    requires lower <= conf
    ensures RuleFloor(rules, conf) <= RuleFloor(rules, lower)
  {
    if rules != [] {
      RuleFloorMonotone(rules[..|rules| - 1], conf, lower);
    }
  }

  /** Worse sensors or a less certain diagnosis never lower the HITL level. */
  lemma GatingMonotone(cfg: Config, a: seq<SensorScore>, b: seq<SensorScore>, ca: Option<int>, cb: Option<int>)
    requires Usable(cfg) && cfg.low <= cfg.medium <= cfg.high
    requires NoWorseThan(a, b) && Confidence(cfg, cb) <= Confidence(cfg, ca)
    ensures Level(cfg, SeverityOf(cfg, a), ca) <= Level(cfg, SeverityOf(cfg, b), cb)
  {
    WorstMonotone(a, b, cfg.staticMarginHigh, cfg.driftZHigh);
    RuleFloorMonotone(cfg.rules, Confidence(cfg, ca), Confidence(cfg, cb));
  }

  predicate Raised(before: SensorScore, after: SensorScore) {
    && (before.staticMargin.Some? ==>
          after.staticMargin.Some? && before.staticMargin.value <= after.staticMargin.value)
    && (before.driftZ.Some? ==> after.driftZ.Some? && before.driftZ.value <= after.driftZ.value)
  }

  lemma RaisedIsNoBetter(sensors: seq<SensorScore>, k: nat, s: SensorScore)
    requires k < |sensors| && Raised(sensors[k], s)
    ensures NoWorseThan(sensors, sensors[k := s])
  {
    var b := sensors[k := s];
    forall x | x in sensors ensures exists y :: y in b && Raised(x, y) {
      var i :| 0 <= i < |sensors| && sensors[i] == x;
      assert b[i] in b && Raised(x, b[i]);
    }
  }

  lemma AddedIsNoBetter(sensors: seq<SensorScore>, s: SensorScore)
    ensures NoWorseThan(sensors, sensors + [s])
  {
    forall x | x in sensors ensures x in sensors + [s] && Raised(x, x) { }
  }

  /** Raising a margin or a drift score of one sensor never lowers the level. */
  lemma RaisingNeverLowers(cfg: Config, sensors: seq<SensorScore>, k: nat, s: SensorScore, confidence: Option<int>)
    requires Usable(cfg) && cfg.low <= cfg.medium <= cfg.high && k < |sensors| && Raised(sensors[k], s)
    ensures Level(cfg, SeverityOf(cfg, sensors), confidence) <= Level(cfg, SeverityOf(cfg, sensors[k := s]), confidence)
  {
    RaisedIsNoBetter(sensors, k, s);
    GatingMonotone(cfg, sensors, sensors[k := s], confidence, confidence);
  }

  /** Nor does one more flagged sensor. */
  lemma AddingNeverLowers(cfg: Config, sensors: seq<SensorScore>, s: SensorScore, confidence: Option<int>)
    requires Usable(cfg) && cfg.low <= cfg.medium <= cfg.high
    ensures Level(cfg, SeverityOf(cfg, sensors), confidence) <= Level(cfg, SeverityOf(cfg, sensors + [s]), confidence)
  {
    AddedIsNoBetter(sensors, s);
    GatingMonotone(cfg, sensors, sensors + [s], confidence, confidence);
  }

  /** Nor does a less certain diagnosis of the same sensors. */
  lemma DoubtNeverLowers(cfg: Config, sensors: seq<SensorScore>, confidence: int, lower: int)
    requires Usable(cfg) && cfg.low <= cfg.medium <= cfg.high && lower <= confidence
    ensures Level(cfg, SeverityOf(cfg, sensors), Some(confidence)) <= Level(cfg, SeverityOf(cfg, sensors), Some(lower))
  {
    GatingMonotone(cfg, sensors, sensors, Some(confidence), Some(lower));
  }

  /** The order in which the sensors are listed is irrelevant. */
  lemma SensorOrderIrrelevant(cfg: Config, a: seq<SensorScore>, b: seq<SensorScore>, confidence: Option<int>)
    requires Usable(cfg) && multiset(a) == multiset(b)
    ensures SeverityOf(cfg, a) == SeverityOf(cfg, b)
    ensures Level(cfg, SeverityOf(cfg, a), confidence) == Level(cfg, SeverityOf(cfg, b), confidence)
  {
    assert forall x :: x in a <==> x in multiset(a);
    assert forall x :: x in b <==> x in multiset(b);
    WorstMonotone(a, b, cfg.staticMarginHigh, cfg.driftZHigh);
    WorstMonotone(b, a, cfg.staticMarginHigh, cfg.driftZHigh);
  }
}
