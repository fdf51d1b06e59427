/** Every event keeps the passes exclusive. */
module ExclusiveSteps {
  import opened Wrappers
  import opened Protocol
  import opened Invariant

  lemma BeginExclusive<T>(agent: Agent<T>, next: nat, pc: T)
    requires AtMostOne(agent, next) && !agent.busy
    ensures AtMostOne(Begin(agent, next, pc), next + 1)
  {
    assert next in Begin(agent, next, pc).passes;
  }

  lemma ContinueExclusive<T>(agent: Agent<T>, next: nat, p: nat, rest: Option<T>)
    requires AtMostOne(agent, next) && p in agent.passes
    ensures AtMostOne(Continue(agent, p, rest), next)
  {
    if rest.Some? { assert p in Continue(agent, p, rest).passes; }
  }

  lemma ExclusiveKept(env: Env, c: Case, e: Event, after: Case)
    requires Exclusive(c) && Next(env, c, e) == Some(after)
    ensures Exclusive(after)
  {
    match e
    case Sensing(_) =>
    case DiagnosisStart => BeginExclusive(c.diagnosis, c.next, ReadingState);
    case DiagnosisStep(p, d) => ContinueExclusive(c.diagnosis, c.next, p, Diagnose(c.db, c.diagnosis.passes[p], d).value.rest);
    case StageStart(done) => BeginExclusive(c.stage, c.next, FirstStep(done));
    case StageStep(p, s) => ContinueExclusive(c.stage, c.next, p, Orchestrate(env, c.db, c.stage.passes[p], s).value.rest);
    case ActionStart => BeginExclusive(c.action, c.next, ViewReading);
    case ActionStep(p, a) => ContinueExclusive(c.action, c.next, p, Act(env, c.db, c.log, p, c.action.passes[p], a).value.rest);
    case CallStart(_) =>
    case CallStep(_, _) =>
    case Polling(_) =>
    case Crash =>
  }
}

/** Every event keeps the stages built on one another. */
module PipelineSteps {
  import opened Wrappers
  import opened Mapping
  import opened Incidents
  import opened Protocol
  import opened Invariant

  // ---------------------------------------------------------------- what a transaction keeps

  ghost predicate SameDiagnosis(d: Slice, e: Slice) {
    && e.record.hypothesis == d.record.hypothesis && e.record.confidence == d.record.confidence
    && (IsWithheld(e) <==> IsWithheld(d))
  }

  ghost predicate SameAssessment(d: Slice, e: Slice) {
    && e.record.severity == d.record.severity && e.record.hitlLevel == d.record.hitlLevel
    && e.record.requiredLevel == d.record.requiredLevel && e.record.actions == d.record.actions
  }

  lemma WithheldAppend(d: Slice, e: Slice, row: HistoryRow)
    requires e.history == d.history + [row]
    ensures IsWithheld(e) <==> IsWithheld(d) || row.to == NeedsHumanReview
  {
    if IsWithheld(d) {
      var i :| 0 <= i < |d.history| && d.history[i].to == NeedsHumanReview;
      assert e.history[i] == d.history[i];
    }
    if row.to == NeedsHumanReview { assert e.history[|d.history|] == row; }
  }

  /** A transaction that only moves the status, to one the columns already back. */
  lemma StatusOnly(d: Slice, e: Slice, row: HistoryRow)
    requires Ladder(d) && e.history == d.history + [row] && e.record == d.record.(status := row.to)
    requires Backed(d.record, row.to) && row.to != NeedsHumanReview && row.to != Investigating
    ensures Ladder(e) && SameDiagnosis(d, e) && SameAssessment(d, e)
  {
    WithheldAppend(d, e, row);
  }

  lemma DiagnosisCarries(d: Slice, e: Slice, pc: DiagnosisPc)
    requires DiagnosisReady(d, pc) && SameDiagnosis(d, e)
    ensures DiagnosisReady(e, pc)
  {
  }

  lemma StageCarries(d: Slice, e: Slice, pc: StagePc)
    requires Ladder(d) && StageReady(d, pc) && (d.record.hypothesis.Some? ==> SameDiagnosis(d, e)) && SameAssessment(d, e)
    ensures StageReady(e, pc)
  {
  }

  ghost predicate Sound(d: Slice) { Ladder(d) && Gated(d.record) }

  // ---------------------------------------------------------------- the agents

  lemma SavedDiagnosis(d: Slice, pc: DiagnosisPc)
    requires Sound(d) && DiagnosisReady(d, pc) && pc.SavingDiagnosis?
    ensures
      var e := SaveRootCause(d, pc.hypothesis, pc.confidence, if pc.accepted then Investigating else NeedsHumanReview);
      Sound(e) && SameAssessment(d, e) && (d.record.hypothesis.Some? ==> SameDiagnosis(d, e))
      && DiagnosisReady(e, pc) && (pc.accepted ==> !IsWithheld(e))
  {
    var status := if pc.accepted then Investigating else NeedsHumanReview;
    var e := SaveRootCause(d, pc.hypothesis, pc.confidence, status);
    WithheldAppend(d, e, HistoryRow(None, status, "root-cause-agent"));
  }

  lemma DiagnoseSound(d: Slice, pc: DiagnosisPc, event: DiagnosisEvent, x: Effect<DiagnosisPc>)
    requires Sound(d) && DiagnosisReady(d, pc) && Diagnose(d, pc, event) == Some(x)
    ensures Sound(x.db) && SameAssessment(d, x.db) && (d.record.hypothesis.Some? ==> SameDiagnosis(d, x.db))
    ensures x.rest.Some? ==> DiagnosisReady(x.db, x.rest.value)
    ensures Announced(x.db, x.publish)
  {
    if event.SaveDiagnosis? { SavedDiagnosis(d, pc); }
  }

  lemma SavedRisk(d: Slice, severity: Risk.Severity, level: int)
    requires Sound(d) && StageReady(d, RiskSaving(severity, level))
    ensures
      var e := SaveRiskAssessment(d, severity, level, level);
      Sound(e) && SameDiagnosis(d, e)
  {
    WithheldAppend(d, SaveRiskAssessment(d, severity, level, level), HistoryRow(None, RiskAssessed, "risk-agent"));
  }

  lemma SavedPlan(d: Slice, level: int, actions: seq<RecommendedAction>)
    requires Sound(d) && StageReady(d, PlanSaving(level, actions))
    ensures
      var e := SaveRecommendation(d, actions, Landing(level));
      Sound(e) && SameDiagnosis(d, e) && e.record.severity.Some? && e.record.hitlLevel == d.record.hitlLevel
      && e.record.actions == Some(actions)
  {
    var r := HistoryRow(None, Recommended, "recommendation-agent");
    var middle := d.(record := d.record.(actions := Some(actions), status := Recommended), history := d.history + [r]);
    WithheldAppend(d, middle, r);
    var e := SaveRecommendation(d, actions, Landing(level));
    var next := HistoryRow(Some(Recommended), Landing(level), "hitl-gate");
    assert e.history == middle.history + [next];
    WithheldAppend(middle, e, next);
  }

  ghost predicate Grown(d: Slice, e: Slice) {
    && SameDiagnosis(d, e)
    && (d.record.severity.Some? ==> e.record.severity.Some?)
    && (d.record.actions.Some? ==> e.record.actions.Some?)
  }

  lemma OrchestrateSound(env: Env, d: Slice, pc: StagePc, event: StageEvent, x: Effect<StagePc>)
    requires Sound(d) && StageReady(d, pc) && Orchestrate(env, d, pc, event) == Some(x)
    ensures Sound(x.db) && Grown(d, x.db)
    ensures x.rest.Some? ==> StageReady(x.db, x.rest.value)
    ensures Announced(x.db, x.publish)
  {
    match event
    case RiskSave => SavedRisk(d, pc.severity, pc.level);
    case PlanSave(_) => SavedPlan(d, pc.level, pc.actions);
    case GateSave => StatusOnly(d, x.db, HistoryRow(None, pc.expected, "orchestrator"));
    case _ =>
  }

  lemma ActSound(env: Env, d: Slice, log: Log, p: nat, pc: ActionPc, event: ActionEvent, x: ActionEffect)
    requires Sound(d) && Act(env, d, log, p, pc, event) == Some(x)
    requires pc != ViewReading ==> d.record.actions.Some?
    ensures Sound(x.db) && SameDiagnosis(d, x.db) && SameAssessment(d, x.db)
  {
    if event.SaveResult? {
      StatusOnly(d, x.db, HistoryRow(None, x.db.record.status, "action-agent"));
    } else {
      assert x.db.history == d.history;
    }
  }

  lemma ServeSound(d: Slice, log: Log, pc: CallPc, event: CallEvent, x: CallEffect)
    requires Sound(d) && Serve(d, log, pc, event) == Some(x)
    requires pc.Deciding? ==> d.record.actions.Some?
    ensures Sound(x.db) && SameDiagnosis(d, x.db) && SameAssessment(d, x.db)
  {
    if event.SaveCall? {
      StatusOnly(d, x.db, x.db.history[|d.history|]);
    }
  }

  lemma PollSound(d: Slice, poll: PollPc, event: PollEvent, x: PollEffect)
    requires Sound(d) && Poll(d, poll, event) == Some(x)
    ensures Sound(x.db) && SameDiagnosis(d, x.db) && SameAssessment(d, x.db)
  {
    if event.PollClose? { StatusOnly(d, x.db, HistoryRow(None, Resolved, "action-agent")); }
  }

  // ---------------------------------------------------------------- decisions presuppose a recommendation

  lemma ObservedIsBacked(d: Slice, observed: nat)
    requires Ladder(d) && observed <= |d.history| && StatusAfter(d.history[..observed]) == AwaitingApproval
    ensures d.record.actions.Some?
  {
    assert Backed(d.record, d.history[observed - 1].to);
  }

  lemma ApprovalIsBacked(env: Env, d: Slice, decided: seq<Decider>)
    requires Ladder(d) && AllRightlyDecided(env, d, decided) && HasApproval(d.approvals)
    ensures d.record.actions.Some?
  {
    var k :| 0 <= k < |d.approvals| && d.approvals[k].decision == Approve;
    assert RightlyDecided(env, d, d.approvals[k], decided[k]);
    ObservedIsBacked(d, decided[k].observed);
  }

  // ---------------------------------------------------------------- all agents together

  lemma AfterDiagnosis(c: Case, p: nat, event: DiagnosisEvent, x: Effect<DiagnosisPc>, after: Case)
    requires Exclusive(c) && Pipeline(c) && p in c.diagnosis.passes
    requires Diagnose(c.db, c.diagnosis.passes[p], event) == Some(x)
    requires after == c.(db := x.db, bus := c.bus + x.publish, diagnosis := Continue(c.diagnosis, p, x.rest))
    ensures Pipeline(after)
  {
    DiagnoseSound(c.db, c.diagnosis.passes[p], event, x);
    forall q | q in c.stage.passes ensures StageReady(x.db, c.stage.passes[q]) {
      StageCarries(c.db, x.db, c.stage.passes[q]);
    }
  }

  lemma AfterStage(env: Env, c: Case, p: nat, event: StageEvent, x: Effect<StagePc>, after: Case)
    requires Exclusive(c) && Pipeline(c) && p in c.stage.passes
    requires Orchestrate(env, c.db, c.stage.passes[p], event) == Some(x)
    requires after == c.(db := x.db, bus := c.bus + x.publish, stage := Continue(c.stage, p, x.rest))
    ensures Pipeline(after)
  {
    OrchestrateSound(env, c.db, c.stage.passes[p], event, x);
    forall q | q in c.diagnosis.passes ensures DiagnosisReady(x.db, c.diagnosis.passes[q]) {
      DiagnosisCarries(c.db, x.db, c.diagnosis.passes[q]);
    }
  }

  /** After a transaction that keeps diagnosis and assessment, no running pass notices. */
  lemma AfterOthers(c: Case, after: Case)
    requires Pipeline(c) && Sound(after.db) && SameDiagnosis(c.db, after.db) && SameAssessment(c.db, after.db)
    requires after.diagnosis == c.diagnosis && after.stage == c.stage
    requires forall s :: StageDone(s) in after.bus ==> StageDone(s) in c.bus
    ensures Pipeline(after)
  {
    forall q | q in c.diagnosis.passes ensures DiagnosisReady(after.db, c.diagnosis.passes[q]) {
      DiagnosisCarries(c.db, after.db, c.diagnosis.passes[q]);
    }
    forall q | q in c.stage.passes ensures StageReady(after.db, c.stage.passes[q]) {
      StageCarries(c.db, after.db, c.stage.passes[q]);
    }
  }

  lemma AfterAction(env: Env, c: Case, p: nat, event: ActionEvent, x: ActionEffect, after: Case)
    requires Pipeline(c) && Cleared(c) && AllRightlyDecided(env, c.db, c.log.decided) && p in c.action.passes
    requires Act(env, c.db, c.log, p, c.action.passes[p], event) == Some(x)
    requires after == c.(db := x.db, log := x.log, action := Continue(c.action, p, x.rest))
    ensures Pipeline(after)
  {
    var pc := c.action.passes[p];
    if pc != ViewReading { ApprovalIsBacked(env, c.db, c.log.decided); }
    ActSound(env, c.db, c.log, p, pc, event, x);
    AfterOthers(c, after);
  }

  lemma AfterCall(env: Env, c: Case, k: nat, event: CallEvent, x: CallEffect, after: Case)
    requires Pipeline(c) && k in c.calls && CallReady(env, c.db, c.calls[k])
    requires Serve(c.db, c.log, c.calls[k], event) == Some(x)
    requires after.db == x.db && after.diagnosis == c.diagnosis && after.stage == c.stage && after.bus == c.bus + x.publish
    ensures Pipeline(after)
  {
    var pc := c.calls[k];
    if pc.Deciding? { ObservedIsBacked(c.db, pc.observed); }
    ServeSound(c.db, c.log, pc, event, x);
    assert x.publish <= {IncidentApproved};
    AfterOthers(c, after);
  }

  lemma AfterPoll(c: Case, event: PollEvent, x: PollEffect, after: Case)
    requires Pipeline(c) && Poll(c.db, c.poll, event) == Some(x) && after == c.(db := x.db, poll := x.poll)
    ensures Pipeline(after)
  {
    PollSound(c.db, c.poll, event, x);
    AfterOthers(c, after);
  }

  lemma AfterStart(env: Env, c: Case, e: Event, after: Case)
    requires Exclusive(c) && Pipeline(c) && Next(env, c, e) == Some(after)
    requires e.Sensing? || e.DiagnosisStart? || e.StageStart? || e.ActionStart? || e.CallStart? || e.Crash?
    ensures Pipeline(after)
  {
  }

  lemma PipelineKept(env: Env, c: Case, e: Event, after: Case)
    requires Exclusive(c) && Pipeline(c) && Decided(env, c) && Next(env, c, e) == Some(after)
    ensures Pipeline(after)
  {
    match e
    case DiagnosisStep(p, d) => AfterDiagnosis(c, p, d, Diagnose(c.db, c.diagnosis.passes[p], d).value, after);
    case StageStep(p, s) => AfterStage(env, c, p, s, Orchestrate(env, c.db, c.stage.passes[p], s).value, after);
    case ActionStep(p, a) => AfterAction(env, c, p, a, Act(env, c.db, c.log, p, c.action.passes[p], a).value, after);
    case CallStep(k, a) => AfterCall(env, c, k, a, Serve(c.db, c.log, c.calls[k], a).value, after);
    case Polling(q) => AfterPoll(c, q, Poll(c.db, c.poll, q).value, after);
    case _ => AfterStart(env, c, e, after);
  }
}
