/** The Orchestrator's uninterrupted handler is one of the runs of the protocol, messages included. */
module StageRuns {
  import opened Wrappers
  import opened Mapping
  import opened Incidents
  import opened Protocol
  import opened Agents

  /** Where a pass gets, and what it has published on the way, in order. */
  datatype Walked<T> = Walked(db: Slice, published: seq<set<Message>>, rest: Option<T>)

  function Sent(messages: set<Message>, later: seq<set<Message>>): seq<set<Message>> {
    if messages == {} then later else [messages] + later
  }

  /** Where a stage pass gets by these steps, with nothing in between; None if it cannot. */
  function Walk(env: Env, d: Slice, pc: StagePc, steps: seq<StageEvent>): Option<Walked<StagePc>>
    decreases |steps|
  {
    if steps == [] then Some(Walked(d, [], Some(pc)))
    else
      match Orchestrate(env, d, pc, steps[0])
      case None => None
      case Some(x) =>
        if x.rest == None then if |steps| == 1 then Some(Walked(x.db, Sent(x.publish, []), None)) else None
        else
          match Walk(env, x.db, x.rest.value, steps[1..])
          case None => None
          case Some(w) => Some(w.(published := Sent(x.publish, w.published)))
  }

  lemma WalkEnds(env: Env, d: Slice, pc: StagePc, e: StageEvent)
    requires Orchestrate(env, d, pc, e).Some? && Orchestrate(env, d, pc, e).value.rest == None
    ensures
      var x := Orchestrate(env, d, pc, e).value;
      Walk(env, d, pc, [e]) == Some(Walked(x.db, if x.publish == {} then [] else [x.publish], None))
  {
    var publish := Orchestrate(env, d, pc, e).value.publish;
    assert [publish] + [] == [publish];
  }

  lemma WalkOn(env: Env, d: Slice, pc: StagePc, e: StageEvent, rest: seq<StageEvent>, w: Walked<StagePc>)
    requires Orchestrate(env, d, pc, e).Some? && Orchestrate(env, d, pc, e).value.rest.Some?
    requires
      var x := Orchestrate(env, d, pc, e).value;
      Walk(env, x.db, x.rest.value, rest) == Some(w)
    ensures Walk(env, d, pc, [e] + rest)
      == Some(w.(published := Sent(Orchestrate(env, d, pc, e).value.publish, w.published)))
  {
    assert ([e] + rest)[1..] == rest;
  }

  /** The messages one by one. */
  function Singles(messages: seq<Message>): (r: seq<set<Message>>)
    ensures |r| == |messages| && forall i :: 0 <= i < |r| ==> r[i] == {messages[i]}
  {
    seq(|messages|, i requires 0 <= i < |messages| => {messages[i]})
  }

  lemma RiskWalk(env: Env, d: Slice, severity: Risk.Severity) returns (steps: seq<StageEvent>)
    ensures
      var level := Risk.Level(env.hitl, severity, d.record.confidence);
      Walk(env, d, RiskReading, steps)
        == Some(Walked(SaveRiskAssessment(d, severity, level, level), [{StageDone(RiskStage)}], None))
  {
    var level := Risk.Level(env.hitl, severity, d.record.confidence);
    var saved := SaveRiskAssessment(d, severity, level, level);
    var end := Walked(saved, [{StageDone(RiskStage)}], None);
    WalkEnds(env, saved, RiskAnnouncing, RiskAnnounce);
    WalkOn(env, d, RiskSaving(severity, level), RiskSave, [RiskAnnounce], end);
    WalkOn(env, d, RiskReading, RiskRead(severity), [RiskSave] + [RiskAnnounce], end);
    steps := [RiskRead(severity)] + ([RiskSave] + [RiskAnnounce]);
  }

  lemma PlanWalk(env: Env, d: Slice, actions: seq<RecommendedAction>) returns (steps: seq<StageEvent>)
    requires d.record.severity.Some?
    ensures
      Walk(env, d, PlanReading, steps)
        == Some(Walked(SaveRecommendation(d, actions, Landing(OrTwo(d.record.hitlLevel))),
                       [{StageDone(RecommendationStage)}, {StageDone(RecommendationStage)}], None))
  {
    var level, done := OrTwo(d.record.hitlLevel), {StageDone(RecommendationStage)};
    var saved := SaveRecommendation(d, actions, Landing(level));
    WalkEnds(env, saved, PlanAnnouncing(false), PlanAnnounce);
    WalkOn(env, saved, PlanAnnouncing(true), PlanAnnounce, [PlanAnnounce], Walked(saved, [done], None));
    var end := Walked(saved, [done] + [done], None);
    assert [done] + [done] == [done, done];
    steps := [PlanAnnounce] + [PlanAnnounce];
    WalkOn(env, d, PlanSaving(level, actions), PlanSave(false), steps, end);
    steps := [PlanSave(false)] + steps;
    WalkOn(env, d, Planning(level), PlanAnswer(actions), steps, end);
    steps := [PlanAnswer(actions)] + steps;
    WalkOn(env, d, PlanReading, PlanRead, steps, end);
    steps := [PlanRead] + steps;
  }

  lemma GateWalk(env: Env, d: Slice) returns (steps: seq<StageEvent>)
    ensures
      var expected := Landing(OrTwo(d.record.requiredLevel));
      Walk(env, d, GateReading, steps)
        == Some(Walked(if d.record.status == expected then d else TransitionIncident(d, expected, "orchestrator"), [], None))
  {
    var expected := Landing(OrTwo(d.record.requiredLevel));
    if d.record.status == expected {
      steps := [GateRead];
      WalkEnds(env, d, GateReading, GateRead);
    } else {
      WalkEnds(env, d, GateSaving(expected), GateSave);
      WalkOn(env, d, GateReading, GateRead, [GateSave], Walked(TransitionIncident(d, expected, "orchestrator"), [], None));
      steps := [GateRead] + [GateSave];
    }
  }

  /** For every stage, incident, set of sensors and answer, the protocol has a pass to the very slice that the
      handler leaves, which publishes the very messages that the handler publishes. */
  lemma HandlerIsARun(env: Env, d: Slice, stage: Stage, sensors: seq<Risk.SensorScore>, actions: seq<RecommendedAction>)
      returns (steps: seq<StageEvent>)
    requires Risk.Usable(env.hitl)
    ensures Walk(env, d, FirstStep(stage), steps)
      == Some(Walked(StageResult(env.hitl, d, stage, sensors, actions), Singles(FollowUps(stage, d.record)), None))
  {
    assert Singles([StageDone(RiskStage)]) == [{StageDone(RiskStage)}];
    var done := StageDone(RecommendationStage);
    assert Singles([done, done]) == [{done}, {done}];
    match stage
    case RootCauseStage => steps := RiskWalk(env, d, Risk.SeverityOf(env.hitl, sensors));
    case RiskStage =>
      if d.record.severity.Some? {
        steps := PlanWalk(env, d, actions);
      } else {
        steps := [PlanRead];
        WalkEnds(env, d, PlanReading, PlanRead);
      }
    case RecommendationStage => steps := GateWalk(env, d);
  }
}

/** So is the handler of the Root-Cause Agent. */
module DiagnosisRuns {
  import opened Wrappers
  import opened Incidents
  import opened Protocol
  import opened RootCause
  import opened StageRuns
  import Citation

  function Walk(d: Slice, pc: DiagnosisPc, steps: seq<DiagnosisEvent>): Option<Walked<DiagnosisPc>>
    decreases |steps|
  {
    if steps == [] then Some(Walked(d, [], Some(pc)))
    else
      match Diagnose(d, pc, steps[0])
      case None => None
      case Some(x) =>
        if x.rest == None then if |steps| == 1 then Some(Walked(x.db, Sent(x.publish, []), None)) else None
        else
          match Walk(x.db, x.rest.value, steps[1..])
          case None => None
          case Some(w) => Some(w.(published := Sent(x.publish, w.published)))
  }

  lemma WalkEnds(d: Slice, pc: DiagnosisPc, e: DiagnosisEvent)
    requires Diagnose(d, pc, e).Some? && Diagnose(d, pc, e).value.rest == None
    ensures
      var x := Diagnose(d, pc, e).value;
      Walk(d, pc, [e]) == Some(Walked(x.db, if x.publish == {} then [] else [x.publish], None))
  {
    var publish := Diagnose(d, pc, e).value.publish;
    assert [publish] + [] == [publish];
  }

  lemma WalkOn(d: Slice, pc: DiagnosisPc, e: DiagnosisEvent, rest: seq<DiagnosisEvent>, w: Walked<DiagnosisPc>)
    requires Diagnose(d, pc, e).Some? && Diagnose(d, pc, e).value.rest.Some?
    requires
      var x := Diagnose(d, pc, e).value;
      Walk(x.db, x.rest.value, rest) == Some(w)
    ensures Walk(d, pc, [e] + rest) == Some(w.(published := Sent(Diagnose(d, pc, e).value.publish, w.published)))
  {
    assert ([e] + rest)[1..] == rest;
  }

  lemma SaveWalk(d: Slice, hypothesis: string, confidence: int, accepted: bool) returns (steps: seq<DiagnosisEvent>)
    ensures
      var status := if accepted then Investigating else NeedsHumanReview;
      Walk(d, SavingDiagnosis(hypothesis, confidence, accepted), steps)
        == Some(Walked(SaveRootCause(d, hypothesis, confidence, status),
                       if accepted then [{StageDone(RootCauseStage)}] else [], None))
  {
    var saved := SaveRootCause(d, hypothesis, confidence, if accepted then Investigating else NeedsHumanReview);
    var pc := SavingDiagnosis(hypothesis, confidence, accepted);
    if accepted {
      WalkEnds(saved, AnnouncingDiagnosis, AnnounceDiagnosis);
      WalkOn(d, pc, SaveDiagnosis(false), [AnnounceDiagnosis], Walked(saved, [{StageDone(RootCauseStage)}], None));
      steps := [SaveDiagnosis(false)] + [AnnounceDiagnosis];
    } else {
      steps := [SaveDiagnosis(false)];
      WalkEnds(d, pc, SaveDiagnosis(false));
    }
  }

  /** For every diagnosis that can come of two answers, the protocol has a pass to the very slice that the
      handler leaves, which announces the diagnosis if and only if the handler does. */
  lemma HandlerIsARun(d: Slice, first: string, second: string, e: Citation.Evidence,
                      matcher: string -> Option<Citation.Match>) returns (steps: seq<DiagnosisEvent>)
    requires d.record.hypothesis == None
    ensures
      var x := Diagnosed(Citation.Expected(first, e, matcher), Citation.Expected(second, e, matcher));
      Walk(d, ReadingState, steps)
        == Some(Walked(Stored(d, x), if x.status == Investigating then [{StageDone(RootCauseStage)}] else [], None))
  {
    var x := Diagnosed(Citation.Expected(first, e, matcher), Citation.Expected(second, e, matcher));
    DiagnosedSound(first, second, e, matcher);
    var accepted := x.status == Investigating;
    var verdict := if accepted then Accepted(x.hypothesis, x.confidence) else Withheld;
    var end := Walked(Stored(d, x), if accepted then [{StageDone(RootCauseStage)}] else [], None);
    steps := SaveWalk(d, x.hypothesis, x.confidence, accepted);
    WalkOn(d, Diagnosing, Answer(verdict), steps, end);
    steps := [Answer(verdict)] + steps;
    WalkOn(d, ReadingState, ReadState, steps, end);
    steps := [ReadState] + steps;
  }
}
