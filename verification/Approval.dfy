/** Every event keeps the pipeline's stages behind the announced diagnosis. */
module SourceSteps {
  import opened Wrappers
  import opened Incidents
  import opened Protocol
  import opened Invariant

  lemma DiagnosisSources(c: Case, p: nat, event: DiagnosisEvent, x: Effect<DiagnosisPc>, after: Case)
    requires Exclusive(c) && Pipeline(c) && Sourced(c) && p in c.diagnosis.passes
    requires Diagnose(c.db, c.diagnosis.passes[p], event) == Some(x)
    requires after == c.(db := x.db, bus := c.bus + x.publish, diagnosis := Continue(c.diagnosis, p, x.rest))
    ensures Sourced(after)
  {
  }

  lemma StageSources(env: Env, c: Case, p: nat, event: StageEvent, x: Effect<StagePc>, after: Case)
    requires Sourced(c) && p in c.stage.passes && Orchestrate(env, c.db, c.stage.passes[p], event) == Some(x)
    requires after == c.(db := x.db, bus := c.bus + x.publish, stage := Continue(c.stage, p, x.rest))
    ensures Sourced(after)
  {
  }

  /** The other agents neither assess nor announce a diagnosis. */
  lemma OthersSource(c: Case, after: Case)
    requires Sourced(c) && after.db.record.severity == c.db.record.severity
    requires after.stage == c.stage && after.diagnosis == c.diagnosis
    requires StageDone(RootCauseStage) in after.bus <==> StageDone(RootCauseStage) in c.bus
    ensures Sourced(after)
  {
  }

  lemma StartSources(env: Env, c: Case, e: Event, after: Case)
    requires Pipeline(c) && Sourced(c) && Next(env, c, e) == Some(after)
    requires e.Sensing? || e.DiagnosisStart? || e.StageStart? || e.ActionStart? || e.CallStart? || e.Crash?
    ensures Sourced(after)
  {
  }

  lemma ActAssessesNothing(env: Env, d: Slice, log: Log, p: nat, pc: ActionPc, event: ActionEvent, x: ActionEffect)
    requires Act(env, d, log, p, pc, event) == Some(x)
    ensures x.db.record.severity == d.record.severity
  {
  }

  lemma CallAssessesNothing(d: Slice, log: Log, pc: CallPc, event: CallEvent, x: CallEffect)
    requires Serve(d, log, pc, event) == Some(x)
    ensures x.db.record.severity == d.record.severity && x.publish <= {IncidentApproved}
  {
  }

  lemma SourcedKept(env: Env, c: Case, e: Event, after: Case)
    requires Exclusive(c) && Pipeline(c) && Sourced(c) && Next(env, c, e) == Some(after)
    ensures Sourced(after)
  {
    match e
    case DiagnosisStep(p, d) => DiagnosisSources(c, p, d, Diagnose(c.db, c.diagnosis.passes[p], d).value, after);
    case StageStep(p, s) => StageSources(env, c, p, s, Orchestrate(env, c.db, c.stage.passes[p], s).value, after);
    case ActionStep(p, a) =>
      ActAssessesNothing(env, c.db, c.log, p, c.action.passes[p], a, Act(env, c.db, c.log, p, c.action.passes[p], a).value);
      OthersSource(c, after);
    case CallStep(k, a) =>
      CallAssessesNothing(c.db, c.log, c.calls[k], a, Serve(c.db, c.log, c.calls[k], a).value);
      OthersSource(c, after);
    case Polling(q) => OthersSource(c, after);
    case _ => StartSources(env, c, e, after);
  }
}

/** How long an approval stays granted: exactly which events end it. */
module Approval {
  import opened Wrappers
  import opened Incidents
  import opened Protocol
  import opened Invariant
  import opened Runs

  /** A stage pass saves its result, whatever the status. */
  predicate Withdraws(e: Event) {
    e.StageStep? && (e.stage.RiskSave? || e.stage.PlanSave? || e.stage.GateSave?)
  }

  /** The approval is acted upon, reversed by a person, or the incident is resolved. */
  predicate Concludes(c: Case, e: Event) {
    match e
    case ActionStep(_, a) => a.SaveResult?
    case CallStep(k, a) =>
      a.SaveCall? && k in c.calls && (c.calls[k].Resolving? || (c.calls[k].Deciding? && c.calls[k].decision == Reject))
    case Polling(q) => q.PollClose?
    case _ => false
  }

  lemma StageLeaves(env: Env, d: Slice, pc: StagePc, e: StageEvent, x: Effect<StagePc>)
    requires StageReady(d, pc) && d.record.status == Approved && Orchestrate(env, d, pc, e) == Some(x)
    ensures if e.RiskSave? || e.PlanSave? || e.GateSave?
            then x.db.record.status in {RiskAssessed, AwaitingApproval, AutoInformed}
            else x.db.record.status == Approved
    ensures x.db.approvals == d.approvals
  {
  }

  lemma ActionLeaves(env: Env, d: Slice, log: Log, p: nat, pc: ActionPc, e: ActionEvent, x: ActionEffect)
    requires d.record.status == Approved && Act(env, d, log, p, pc, e) == Some(x)
    ensures x.db.record.status in (if e.SaveResult? then {ActionTaken, ActionFailed} else {Approved})
  {
  }

  lemma CallLeaves(d: Slice, log: Log, pc: CallPc, e: CallEvent, x: CallEffect)
    requires d.record.status == Approved && Serve(d, log, pc, e) == Some(x)
    ensures x.db.record.status ==
      if e.SaveCall? && pc.Resolving? then Resolved
      else if e.SaveCall? && pc.Deciding? && pc.decision == Reject then Rejected
      else Approved
  {
  }

  /** No diagnosis is written once the incident has come as far as an approval. */
  lemma DiagnosisIsOver(c: Case, p: nat, e: DiagnosisEvent, x: Effect<DiagnosisPc>)
    requires Pipeline(c) && Sourced(c) && c.db.record.status == Approved && p in c.diagnosis.passes
    requires Diagnose(c.db, c.diagnosis.passes[p], e) == Some(x)
    ensures x.db == c.db
  {
    assert Backed(c.db.record, c.db.history[|c.db.history| - 1].to);
  }

  lemma OthersLeaveStatus(env: Env, c: Case, e: Event, after: Case)
    requires Next(env, c, e) == Some(after)
    requires !e.DiagnosisStep? && !e.StageStep? && !e.ActionStep? && !e.CallStep?
    ensures after.db.record.status == if e.Polling? && e.poll.PollClose? then Resolved else c.db.record.status
  {
  }

  /** An approved incident stays approved unless a stage pass saves or the approval is concluded. */
  lemma ApprovedStep(env: Env, c: Case, e: Event, after: Case)
    requires Pipeline(c) && Sourced(c) && c.db.record.status == Approved && Next(env, c, e) == Some(after)
    ensures after.db.record.status != Approved <==> Withdraws(e) || Concludes(c, e)
    ensures Withdraws(e) ==>
      after.db.record.status in {RiskAssessed, AwaitingApproval, AutoInformed} && after.db.approvals == c.db.approvals
    ensures Concludes(c, e) ==> after.db.record.status in {ActionTaken, ActionFailed, Rejected, Resolved}
  {
    match e
    case DiagnosisStep(p, d) => DiagnosisIsOver(c, p, d, Diagnose(c.db, c.diagnosis.passes[p], d).value);
    case StageStep(p, s) => StageLeaves(env, c.db, c.stage.passes[p], s, Orchestrate(env, c.db, c.stage.passes[p], s).value);
    case ActionStep(p, a) =>
      ActionLeaves(env, c.db, c.log, p, c.action.passes[p], a, Act(env, c.db, c.log, p, c.action.passes[p], a).value);
    case CallStep(k, a) => CallLeaves(c.db, c.log, c.calls[k], a, Serve(c.db, c.log, c.calls[k], a).value);
    case _ => OthersLeaveStatus(env, c, e, after);
  }

  // ---------------------------------------------------------------- over runs

  predicate WithdrawnBy(s: Sys, id: Id, e: SysEvent) {
    e.On? && e.id == id && Withdraws(e.event)
  }

  predicate ConcludedBy(s: Sys, id: Id, e: SysEvent)
    requires id in s
  {
    e.On? && e.id == id && Concludes(s[id], e.event)
  }

  /** In every run, the step from an approved incident leaves it unapproved if and only if it is the save of a
      stage pass, which withdraws the approval, or a result, rejection or resolution, which concludes it. */
  lemma ApprovalEndsIff(env: Env, events: seq<SysEvent>, states: seq<Sys>, i: nat, id: Id)
    requires IsRun(env, events, states) && i + 1 < |states|
    requires id in states[i] && states[i][id].db.record.status == Approved
    ensures id in states[i + 1]
    ensures
      var s, e, after := states[i], events[i], states[i + 1][id].db;
      && (after.record.status != Approved <==> WithdrawnBy(s, id, e) || ConcludedBy(s, id, e))
      && (WithdrawnBy(s, id, e) ==>
            after.record.status in {RiskAssessed, AwaitingApproval, AutoInformed} && after.approvals == s[id].db.approvals)
      && (ConcludedBy(s, id, e) ==> after.record.status in {ActionTaken, ActionFailed, Rejected, Resolved})
  {
    StepGrows(env, events, states, i, id);
    OnlyOneIncident(env, states[i], events[i], states[i + 1], id);
    RunKeeps(env, events, states, i, id);
    if events[i].id == id { ApprovedStep(env, states[i][id], events[i].event, states[i + 1][id]); }
  }

  /** Nothing ends the approval of `id` between two states of the run. */
  ghost predicate Undisturbed(events: seq<SysEvent>, states: seq<Sys>, i: nat, j: nat, id: Id)
    requires i <= j < |states| && |states| == |events| + 1
  {
    forall k | i <= k < j && id in states[k] ::
      !WithdrawnBy(states[k], id, events[k]) && !ConcludedBy(states[k], id, events[k])
  }

  /** An approval holds through a stretch of a run if and only if none of these events happens in it. */
  lemma {:induction false} ApprovalStaysIff(env: Env, events: seq<SysEvent>, states: seq<Sys>, i: nat, j: nat, id: Id)
    requires IsRun(env, events, states) && i <= j < |states|
    requires id in states[i] && states[i][id].db.record.status == Approved
    ensures Undisturbed(events, states, i, j, id)
      <==> forall k | i <= k <= j :: id in states[k] && states[k][id].db.record.status == Approved
  {
    if i < j {
      ApprovalStaysIff(env, events, states, i, j - 1, id);
      if Undisturbed(events, states, i, j - 1, id) { ApprovalEndsIff(env, events, states, j - 1, id); }
    }
  }

  // ---------------------------------------------------------------- late gate messages

  lemma GateReads(env: Env, d: Slice, x: Effect<StagePc>)
    requires d.record.status == Approved && Orchestrate(env, d, GateReading, GateRead) == Some(x)
    ensures x.rest == Some(GateSaving(Landing(OrTwo(d.record.requiredLevel))))
  {
  }

  /** A gate pass that reads an approved incident goes on to a save, and its only save withdraws the approval. */
  lemma GateReadWithdraws(env: Env, c: Case, p: nat, after: Case)
    requires c.db.record.status == Approved && p in c.stage.passes && c.stage.passes[p] == GateReading
    requires Next(env, c, StageStep(p, GateRead)) == Some(after)
    ensures p in after.stage.passes && after.stage.passes[p].GateSaving?
    ensures after.stage.passes[p].expected in {AwaitingApproval, AutoInformed}
  {
    GateReads(env, c.db, Orchestrate(env, c.db, GateReading, GateRead).value);
  }

  /** Whatever has happened to the incident meanwhile, the pass saves that status or is dropped. */
  lemma GateSaves(env: Env, c: Case, p: nat, e: StageEvent, after: Case)
    requires p in c.stage.passes && c.stage.passes[p].GateSaving? && Next(env, c, StageStep(p, e)) == Some(after)
    ensures e.GateSave? || e.DropStage?
    ensures e.GateSave? ==> after.db.record.status == c.stage.passes[p].expected
    ensures e.DropStage? ==> after.db == c.db
  {
  }
}
