/** Every event keeps the learning loop closed at most once, and only over an executed work order. */
module ClosingSteps {
  import opened Wrappers
  import opened Incidents
  import opened Protocol
  import opened Invariant
  import ActionFrame

  lemma CountAppend(rows: seq<AuditRow>, row: AuditRow, kind: AuditKind)
    ensures CountAudit(rows + [row], kind) == CountAudit(rows, kind) + if row.kind == kind then 1 else 0
  {
    assert (rows + [row])[..|rows|] == rows;
  }

  lemma WorkOrderStays(rows: seq<AttemptRow>, more: seq<AttemptRow>)
    requires rows <= more && HasWorkOrder(rows)
    ensures HasWorkOrder(more)
  {
    var i :| 0 <= i < |rows| && IsWorkOrder(rows[i]);
    assert IsWorkOrder(more[i]);
  }

  ghost predicate LoopUntouched(d: Slice, e: Slice) {
    && e.learned == d.learned
    && d.attempts <= e.attempts
    && CountAudit(e.audit, LoopClosed) == CountAudit(d.audit, LoopClosed)
  }

  lemma OtherAuditRow(d: Slice, e: Slice)
    requires e.learned == d.learned && d.attempts <= e.attempts
    requires e.audit == d.audit || exists a: AuditRow :: a.kind != LoopClosed && e.audit == d.audit + [a]
    ensures LoopUntouched(d, e)
  {
    if e.audit != d.audit {
      var a: AuditRow :| a.kind != LoopClosed && e.audit == d.audit + [a];
      CountAppend(d.audit, a, LoopClosed);
    }
  }

  lemma ActLeavesLoop(env: Env, d: Slice, log: Log, p: nat, pc: ActionPc, event: ActionEvent, x: ActionEffect)
    requires Act(env, d, log, p, pc, event) == Some(x)
    ensures LoopUntouched(d, x.db)
  {
    if x.db.audit != d.audit { assert x.db.audit == d.audit + [AuditRow(ActionExecuted, "action-agent")]; }
    OtherAuditRow(d, x.db);
  }

  lemma AfterUntouched(c: Case, after: Case)
    requires Closing(c) && LoopUntouched(c.db, after.db) && (after.poll == c.poll || after.poll == PollIdle)
    ensures Closing(after)
  {
    if HasWorkOrder(c.db.attempts) { WorkOrderStays(c.db.attempts, after.db.attempts); }
  }

  lemma AfterPoll(c: Case, event: PollEvent, x: PollEffect, after: Case)
    requires Closing(c) && Poll(c.db, c.poll, event) == Some(x) && after == c.(db := x.db, poll := x.poll)
    ensures Closing(after)
  {
    if event.PollClose? { CountAppend(c.db.audit, AuditRow(LoopClosed, "action-agent"), LoopClosed); }
  }

  lemma ClosingKept(env: Env, c: Case, e: Event, after: Case)
    requires Closing(c) && Next(env, c, e) == Some(after)
    ensures Closing(after)
  {
    match e
    case DiagnosisStep(p, d) =>
      ActionFrame.DiagnoseLeaves(c.db, c.diagnosis.passes[p], d, Diagnose(c.db, c.diagnosis.passes[p], d).value);
      AfterUntouched(c, after);
    case StageStep(p, s) =>
      ActionFrame.OrchestrateLeaves(env, c.db, c.stage.passes[p], s, Orchestrate(env, c.db, c.stage.passes[p], s).value);
      AfterUntouched(c, after);
    case ActionStep(p, a) =>
      ActLeavesLoop(env, c.db, c.log, p, c.action.passes[p], a, Act(env, c.db, c.log, p, c.action.passes[p], a).value);
      AfterUntouched(c, after);
    case CallStep(k, a) =>
      ActionFrame.ServeLeaves(c.db, c.log, c.calls[k], a, Serve(c.db, c.log, c.calls[k], a).value);
      OtherAuditRow(c.db, after.db);
      AfterUntouched(c, after);
    case Polling(q) => AfterPoll(c, q, Poll(c.db, c.poll, q).value, after);
    case _ => AfterUntouched(c, after);
  }
}

/** What was written stays: the logs only grow, and a stored diagnosis never changes. */
module GrowthSteps {
  import opened Wrappers
  import opened Incidents
  import opened Protocol
  import opened Invariant
  import opened DecisionSteps

  ghost predicate Grows(c: Case, after: Case) {
    && Extends(c.db, after.db)
    && (c.db.record.hypothesis.Some? ==>
          after.db.record.hypothesis == c.db.record.hypothesis && after.db.record.confidence == c.db.record.confidence)
    && c.bus <= after.bus
    && c.log.decided <= after.log.decided && c.log.cmms <= after.log.cmms
    && c.log.attemptPass <= after.log.attemptPass && c.log.ended <= after.log.ended && c.log.lost <= after.log.lost
  }

  lemma GrowsTransitive(a: Case, b: Case, c: Case)
    requires Grows(a, b) && Grows(b, c)
    ensures Grows(a, c)
  {
  }

  lemma ActLogGrows(env: Env, d: Slice, log: Log, p: nat, pc: ActionPc, event: ActionEvent, x: ActionEffect)
    requires Act(env, d, log, p, pc, event) == Some(x)
    ensures x.log.decided == log.decided && log.cmms <= x.log.cmms && log.attemptPass <= x.log.attemptPass
    ensures log.ended <= x.log.ended && log.lost <= x.log.lost
    ensures x.db.record.hypothesis == d.record.hypothesis && x.db.record.confidence == d.record.confidence
  {
  }

  lemma ActGrows(env: Env, c: Case, p: nat, event: ActionEvent, x: ActionEffect, after: Case)
    requires p in c.action.passes && Act(env, c.db, c.log, p, c.action.passes[p], event) == Some(x)
    requires after == c.(db := x.db, log := x.log, action := Continue(c.action, p, x.rest))
    ensures Grows(c, after)
  {
    ActQuiet(env, c.db, c.log, p, c.action.passes[p], event, x);
    ActLogGrows(env, c.db, c.log, p, c.action.passes[p], event, x);
  }

  lemma CallGrows(env: Env, c: Case, k: nat, event: CallEvent, after: Case)
    requires Next(env, c, CallStep(k, event)) == Some(after)
    ensures Grows(c, after)
  {
  }

  lemma DiagnosisGrows(c: Case, p: nat, event: DiagnosisEvent, x: Effect<DiagnosisPc>, after: Case)
    requires Pipeline(c) && p in c.diagnosis.passes && Diagnose(c.db, c.diagnosis.passes[p], event) == Some(x)
    requires after == c.(db := x.db, bus := c.bus + x.publish, diagnosis := Continue(c.diagnosis, p, x.rest))
    ensures Grows(c, after)
  {
    PipelineSteps.DiagnoseSound(c.db, c.diagnosis.passes[p], event, x);
    DiagnoseQuiet(c.db, c.diagnosis.passes[p], event, x);
  }

  lemma StageGrows(env: Env, c: Case, p: nat, event: StageEvent, x: Effect<StagePc>, after: Case)
    requires Pipeline(c) && p in c.stage.passes && Orchestrate(env, c.db, c.stage.passes[p], event) == Some(x)
    requires after == c.(db := x.db, bus := c.bus + x.publish, stage := Continue(c.stage, p, x.rest))
    ensures Grows(c, after)
  {
    PipelineSteps.OrchestrateSound(env, c.db, c.stage.passes[p], event, x);
    OrchestrateQuiet(env, c.db, c.stage.passes[p], event, x);
  }

  /** Sensing, beginnings and crashes write nothing. */
  lemma OthersGrow(env: Env, c: Case, e: Event, after: Case)
    requires Next(env, c, e) == Some(after)
    requires e.Sensing? || e.DiagnosisStart? || e.StageStart? || e.ActionStart? || e.CallStart? || e.Crash?
    ensures Grows(c, after)
  {
  }

  lemma EveryEventGrows(env: Env, c: Case, e: Event, after: Case)
    requires Pipeline(c) && Next(env, c, e) == Some(after)
    ensures Grows(c, after)
  {
    match e
    case DiagnosisStep(p, d) => DiagnosisGrows(c, p, d, Diagnose(c.db, c.diagnosis.passes[p], d).value, after);
    case StageStep(p, s) => StageGrows(env, c, p, s, Orchestrate(env, c.db, c.stage.passes[p], s).value, after);
    case ActionStep(p, a) => ActGrows(env, c, p, a, Act(env, c.db, c.log, p, c.action.passes[p], a).value, after);
    case CallStep(k, a) => CallGrows(env, c, k, a, after);
    case Polling(q) => PollQuiet(c.db, c.poll, q, Poll(c.db, c.poll, q).value);
    case _ => OthersGrow(env, c, e, after);
  }
}
