/** Every event keeps the stored levels equal to what the risk rules demand for the stored severity and confidence. */
module AssessmentSteps {
  import opened Wrappers
  import opened Incidents
  import opened Protocol
  import opened Invariant
  import Risk

  lemma DiagnosisAssesses(env: Env, c: Case, p: nat, event: DiagnosisEvent, x: Effect<DiagnosisPc>, after: Case)
    requires Sourced(c) && Assessed(env, c) && p in c.diagnosis.passes
    requires Diagnose(c.db, c.diagnosis.passes[p], event) == Some(x)
    requires after == c.(db := x.db, bus := c.bus + x.publish, diagnosis := Continue(c.diagnosis, p, x.rest))
    ensures Assessed(env, after)
  {
    if c.db.record.severity.Some? || c.stage.passes != map[] {
      assert x.db == c.db;
    }
  }

  lemma StageAssesses(env: Env, c: Case, p: nat, event: StageEvent, x: Effect<StagePc>, after: Case)
    requires Exclusive(c) && Assessed(env, c) && p in c.stage.passes
    requires Orchestrate(env, c.db, c.stage.passes[p], event) == Some(x)
    requires after == c.(db := x.db, bus := c.bus + x.publish, stage := Continue(c.stage, p, x.rest))
    ensures Assessed(env, after)
  {
  }

  lemma OthersAssess(env: Env, c: Case, after: Case)
    requires Assessed(env, c) && after.stage == c.stage
    requires after.db.record.severity == c.db.record.severity && after.db.record.confidence == c.db.record.confidence
    requires after.db.record.hitlLevel == c.db.record.hitlLevel
    requires after.db.record.requiredLevel == c.db.record.requiredLevel
    ensures Assessed(env, after)
  {
  }

  lemma StartAssesses(env: Env, c: Case, e: Event, after: Case)
    requires Assessed(env, c) && Next(env, c, e) == Some(after)
    requires e.Sensing? || e.DiagnosisStart? || e.StageStart? || e.ActionStart? || e.CallStart? || e.Crash?
    ensures Assessed(env, after)
  {
  }

  ghost predicate SameColumns(d: Slice, e: Slice) {
    && e.record.severity == d.record.severity && e.record.confidence == d.record.confidence
    && e.record.hitlLevel == d.record.hitlLevel && e.record.requiredLevel == d.record.requiredLevel
  }

  lemma ActAssesses(env: Env, d: Slice, log: Log, p: nat, pc: ActionPc, event: ActionEvent, x: ActionEffect)
    requires Act(env, d, log, p, pc, event) == Some(x)
    ensures SameColumns(d, x.db)
  {
  }

  lemma CallAssesses(d: Slice, log: Log, pc: CallPc, event: CallEvent, x: CallEffect)
    requires Serve(d, log, pc, event) == Some(x)
    ensures SameColumns(d, x.db)
  {
  }

  lemma AssessedKept(env: Env, c: Case, e: Event, after: Case)
    requires Exclusive(c) && Sourced(c) && Assessed(env, c) && Next(env, c, e) == Some(after)
    ensures Assessed(env, after)
  {
    match e
    case DiagnosisStep(p, d) => DiagnosisAssesses(env, c, p, d, Diagnose(c.db, c.diagnosis.passes[p], d).value, after);
    case StageStep(p, s) => StageAssesses(env, c, p, s, Orchestrate(env, c.db, c.stage.passes[p], s).value, after);
    case ActionStep(p, a) =>
      ActAssesses(env, c.db, c.log, p, c.action.passes[p], a, Act(env, c.db, c.log, p, c.action.passes[p], a).value);
      OthersAssess(env, c, after);
    case CallStep(k, a) =>
      CallAssesses(c.db, c.log, c.calls[k], a, Serve(c.db, c.log, c.calls[k], a).value);
      OthersAssess(env, c, after);
    case Polling(q) => OthersAssess(env, c, after);
    case _ => StartAssesses(env, c, e, after);
  }
}
