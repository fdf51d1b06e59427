/** Every event keeps the three decision logs in agreement, and every external write behind an approval. */
module DecisionSteps {
  import opened Wrappers
  import opened Mapping
  import opened Incidents
  import opened Protocol
  import opened Invariant
  import PipelineSteps

  /** The logs only grow; the site and the equipment never change. */
  ghost predicate Extends(d: Slice, e: Slice) {
    && e.record.site == d.record.site && e.record.equipment == d.record.equipment
    && d.history <= e.history && d.approvals <= e.approvals && d.audit <= e.audit
    && d.attempts <= e.attempts && d.learned <= e.learned
  }

  /** A transaction without a decision in it. */
  ghost predicate Quiet(d: Slice, e: Slice) {
    && Extends(d, e)
    && e.approvals == d.approvals
    && DecisionsInHistory(e.history) == DecisionsInHistory(d.history)
    && DecisionsInAudit(e.audit) == DecisionsInAudit(d.audit)
    && (e.record.status == Approved ==> d.record.status == Approved)
  }

  lemma HistoryAppend(rows: seq<HistoryRow>, row: HistoryRow)
    ensures DecisionsInHistory(rows + [row]) == DecisionsInHistory(rows)
      + if row.to == Approved then [(Approve, row.actor)] else if row.to == Rejected then [(Reject, row.actor)] else []
  {
    assert (rows + [row])[..|rows|] == rows;
  }

  lemma AuditAppend(rows: seq<AuditRow>, row: AuditRow)
    ensures DecisionsInAudit(rows + [row]) == DecisionsInAudit(rows)
      + if row.kind.HitlDecision? then [(row.kind.decision, row.actor)] else []
  {
    assert (rows + [row])[..|rows|] == rows;
  }

  lemma QuietStep(d: Slice, e: Slice, row: HistoryRow)
    requires e.history == d.history + [row] && row.to != Approved && row.to != Rejected && e.record.status == row.to
    requires e.approvals == d.approvals && e.attempts == d.attempts && d.learned <= e.learned
    requires e.record.site == d.record.site && e.record.equipment == d.record.equipment
    requires e.audit == d.audit || exists a: AuditRow :: !a.kind.HitlDecision? && e.audit == d.audit + [a]
    ensures Quiet(d, e)
  {
    HistoryAppend(d.history, row);
    if e.audit != d.audit {
      var a: AuditRow :| !a.kind.HitlDecision? && e.audit == d.audit + [a];
      AuditAppend(d.audit, a);
    }
  }

  lemma DiagnoseQuiet(d: Slice, pc: DiagnosisPc, event: DiagnosisEvent, x: Effect<DiagnosisPc>)
    requires Diagnose(d, pc, event) == Some(x)
    ensures Quiet(d, x.db) && IncidentApproved !in x.publish
  {
    if event.SaveDiagnosis? { QuietStep(d, x.db, HistoryRow(None, x.db.record.status, "root-cause-agent")); }
  }

  lemma PlanQuiet(d: Slice, actions: seq<RecommendedAction>, level: int)
    ensures Quiet(d, SaveRecommendation(d, actions, Landing(level)))
  {
    var r := HistoryRow(None, Recommended, "recommendation-agent");
    var next := HistoryRow(Some(Recommended), Landing(level), "hitl-gate");
    var e := SaveRecommendation(d, actions, Landing(level));
    HistoryAppend(d.history, r);
    HistoryAppend(d.history + [r], next);
    assert e.history == (d.history + [r]) + [next];
  }

  lemma OrchestrateQuiet(env: Env, d: Slice, pc: StagePc, event: StageEvent, x: Effect<StagePc>)
    requires StageReady(d, pc) && Orchestrate(env, d, pc, event) == Some(x)
    ensures Quiet(d, x.db) && IncidentApproved !in x.publish
  {
    match event
    case RiskSave => QuietStep(d, x.db, HistoryRow(None, RiskAssessed, "risk-agent"));
    case PlanSave(_) => PlanQuiet(d, pc.actions, pc.level);
    case GateSave => QuietStep(d, x.db, HistoryRow(None, pc.expected, "orchestrator"));
    case _ =>
  }

  lemma ResultQuiet(d: Slice, status: Status, executed: bool)
    requires status == ActionTaken || status == ActionFailed
    ensures Quiet(d, SaveActionResult(d, status, executed))
  {
    var e := SaveActionResult(d, status, executed);
    if e.audit != d.audit { assert e.audit == d.audit + [AuditRow(ActionExecuted, "action-agent")]; }
    QuietStep(d, e, HistoryRow(None, status, "action-agent"));
  }

  lemma ActQuiet(env: Env, d: Slice, log: Log, p: nat, pc: ActionPc, event: ActionEvent, x: ActionEffect)
    requires Act(env, d, log, p, pc, event) == Some(x)
    ensures Quiet(d, x.db)
  {
    if event.SaveResult? { ResultQuiet(d, x.db.record.status, pc.Opening?); }
  }

  lemma ResolveQuiet(d: Slice, username: string)
    ensures Quiet(d, ResolveManually(d, username))
  {
    var e := ResolveManually(d, username);
    assert e.audit == d.audit + [AuditRow(IncidentResolved, username)];
    QuietStep(d, e, HistoryRow(None, Resolved, username));
  }

  lemma PollQuiet(d: Slice, poll: PollPc, event: PollEvent, x: PollEffect)
    requires Poll(d, poll, event) == Some(x)
    ensures Quiet(d, x.db)
  {
    if event.PollClose? {
      assert x.db.audit == d.audit + [AuditRow(LoopClosed, "action-agent")];
      QuietStep(d, x.db, HistoryRow(None, Resolved, "action-agent"));
    }
  }

  // ---------------------------------------------------------------- what growth keeps

  lemma EntitledCarries(env: Env, d: Slice, e: Slice, principal: Principal, decision: Decision, level: int,
                        justification: string, observed: nat)
    requires Extends(d, e) && Entitled(env, d, principal, decision, level, justification, observed)
    ensures Entitled(env, e, principal, decision, level, justification, observed)
  {
    assert e.history[..observed] == d.history[..observed];
  }

  lemma ApprovalCarries(rows: seq<ApprovalRow>, more: seq<ApprovalRow>)
    requires rows <= more && HasApproval(rows)
    ensures HasApproval(more)
  {
    var k :| 0 <= k < |rows| && rows[k].decision == Approve;
    assert more[k] == rows[k];
  }

  lemma DecidersCarry(env: Env, d: Slice, e: Slice, decided: seq<Decider>)
    requires Extends(d, e) && e.approvals == d.approvals && AllRightlyDecided(env, d, decided)
    ensures AllRightlyDecided(env, e, decided)
  {
    forall k | 0 <= k < |decided| ensures RightlyDecided(env, e, e.approvals[k], decided[k]) {
      var row, who := d.approvals[k], decided[k];
      assert RightlyDecided(env, d, row, who);
      EntitledCarries(env, d, e, who.principal, row.decision, row.level, row.justification, who.observed);
    }
  }

  lemma CallCarries(env: Env, d: Slice, e: Slice, pc: CallPc)
    requires Extends(d, e) && CallReady(env, d, pc)
    ensures CallReady(env, e, pc)
  {
    match pc
    case Deciding(principal, decision, level, justification, observed) =>
      EntitledCarries(env, d, e, principal, decision, level, justification, observed);
    case AnnouncingApproval => ApprovalCarries(d.approvals, e.approvals);
    case Resolving(_) =>
  }

  lemma CallsCarry(env: Env, d: Slice, e: Slice, calls: map<nat, CallPc>)
    requires Extends(d, e) && CallsReady(env, d, calls)
    ensures CallsReady(env, e, calls)
  {
    forall k | k in calls ensures CallReady(env, e, calls[k]) { CallCarries(env, d, e, calls[k]); }
  }

  lemma WritesCarry(approvals: seq<ApprovalRow>, more: seq<ApprovalRow>, cmms: seq<CmmsWrite>)
    requires approvals <= more && WritesCleared(approvals, cmms)
    ensures WritesCleared(more, cmms)
  {
    forall w | 0 <= w < |cmms| ensures cmms[w].approvalsSeen <= |more| && HasApproval(more[..cmms[w].approvalsSeen]) {
      assert more[..cmms[w].approvalsSeen] == approvals[..cmms[w].approvalsSeen];
    }
  }

  // ---------------------------------------------------------------- events without a decision

  lemma AfterQuiet(env: Env, c: Case, after: Case)
    requires Decided(env, c) && Quiet(c.db, after.db) && after.log.decided == c.log.decided
    requires after.calls == c.calls && after.log.cmms == c.log.cmms
    requires IncidentApproved in after.bus ==> IncidentApproved in c.bus
    requires forall p :: p in after.action.passes && after.action.passes[p] != ViewReading ==> HasApproval(c.db.approvals)
    ensures Decided(env, after)
  {
    DecidersCarry(env, c.db, after.db, c.log.decided);
    CallsCarry(env, c.db, after.db, c.calls);
  }

  /** Past the view, a pass has an approval behind it. */
  lemma ActCleared(env: Env, c: Case, p: nat, event: ActionEvent, x: ActionEffect)
    requires Cleared(c) && p in c.action.passes && Act(env, c.db, c.log, p, c.action.passes[p], event) == Some(x)
    ensures x.rest.Some? && x.rest.value != ViewReading ==> HasApproval(c.db.approvals)
    ensures WritesCleared(c.db.approvals, x.log.cmms) && x.log.decided == c.log.decided
  {
    var pc := c.action.passes[p];
    if event.Attempt? {
      assert c.db.approvals[..|c.db.approvals|] == c.db.approvals;
    }
  }

  lemma AfterAction(env: Env, c: Case, p: nat, event: ActionEvent, x: ActionEffect, after: Case)
    requires Decided(env, c) && p in c.action.passes && Act(env, c.db, c.log, p, c.action.passes[p], event) == Some(x)
    requires after == c.(db := x.db, log := x.log, action := Continue(c.action, p, x.rest))
    ensures Decided(env, after)
  {
    ActQuiet(env, c.db, c.log, p, c.action.passes[p], event, x);
    ActCleared(env, c, p, event, x);
    DecidersCarry(env, c.db, after.db, c.log.decided);
    CallsCarry(env, c.db, after.db, c.calls);
  }

  // ---------------------------------------------------------------- decisions

  /** The guards of the decision endpoint establish what the approval row will claim. */
  lemma Admitted(env: Env, d: Slice, request: Request, pc: CallPc)
    requires Ladder(d) && Gated(d.record) && Admit(env, d, request) == Some(pc)
    ensures CallReady(env, d, pc)
  {
    assert d.history[..|d.history|] == d.history;
  }

  lemma ApprovalsAppend(rows: seq<ApprovalRow>, row: ApprovalRow)
    ensures DecisionsInApprovals(rows + [row]) == DecisionsInApprovals(rows) + [(row.decision, row.decidedBy)]
  {
    assert (rows + [row])[..|rows|] == rows;
  }

  lemma ApprovalAgrees(d: Slice, decision: Decision, username: string, level: int, justification: string)
    requires LogsAgree(d)
    ensures LogsAgree(RecordApproval(d, decision, username, level, justification))
  {
    HistoryAppend(d.history, HistoryRow(None, DecisionStatus(decision), username));
    ApprovalsAppend(d.approvals, ApprovalRow(decision, username, level, justification));
    AuditAppend(d.audit, AuditRow(HitlDecision(decision), username));
  }

  lemma DecisionRecorded(env: Env, d: Slice, decided: seq<Decider>, pc: CallPc)
    requires AllRightlyDecided(env, d, decided) && pc.Deciding? && CallReady(env, d, pc)
    ensures
      var e := RecordApproval(d, pc.decision, pc.principal.username, pc.level, pc.justification);
      Extends(d, e) && AllRightlyDecided(env, e, decided + [Decider(pc.principal, pc.observed, |d.history|)])
      && (pc.decision == Approve ==> HasApproval(e.approvals))
  {
    var e := RecordApproval(d, pc.decision, pc.principal.username, pc.level, pc.justification);
    var more := decided + [Decider(pc.principal, pc.observed, |d.history|)];
    forall k | 0 <= k < |more| ensures RightlyDecided(env, e, e.approvals[k], more[k]) {
      if k < |decided| {
        var row, who := d.approvals[k], decided[k];
        assert RightlyDecided(env, d, row, who);
        EntitledCarries(env, d, e, who.principal, row.decision, row.level, row.justification, who.observed);
      } else {
        EntitledCarries(env, d, e, pc.principal, pc.decision, pc.level, pc.justification, pc.observed);
      }
    }
    if pc.decision == Approve { assert e.approvals[|d.approvals|].decision == Approve; }
  }

  lemma AfterDecision(env: Env, c: Case, k: nat, x: CallEffect, after: Case)
    requires Decided(env, c) && k in c.calls && c.calls[k].Deciding? && Serve(c.db, c.log, c.calls[k], SaveCall) == Some(x)
    requires after == c.(db := x.db, log := x.log, bus := c.bus + x.publish,
                         calls := if x.rest.Some? then c.calls[k := x.rest.value] else c.calls - {k})
    ensures Decided(env, after)
  {
    var pc := c.calls[k];
    ApprovalAgrees(c.db, pc.decision, pc.principal.username, pc.level, pc.justification);
    DecisionRecorded(env, c.db, c.log.decided, pc);
    CallsCarry(env, c.db, x.db, c.calls);
    WritesCarry(c.db.approvals, x.db.approvals, c.log.cmms);
    if HasApproval(c.db.approvals) { ApprovalCarries(c.db.approvals, x.db.approvals); }
  }

  lemma AfterOtherCall(env: Env, c: Case, k: nat, event: CallEvent, x: CallEffect, after: Case)
    requires Decided(env, c) && k in c.calls && !(c.calls[k].Deciding? && event.SaveCall?)
    requires Serve(c.db, c.log, c.calls[k], event) == Some(x)
    requires after == c.(db := x.db, log := x.log, bus := c.bus + x.publish,
                         calls := if x.rest.Some? then c.calls[k := x.rest.value] else c.calls - {k})
    ensures Decided(env, after)
  {
    var pc := c.calls[k];
    assert CallReady(env, c.db, pc);
    if event.SaveCall? { ResolveQuiet(c.db, pc.username); }
    DecidersCarry(env, c.db, after.db, c.log.decided);
    CallsCarry(env, c.db, after.db, c.calls);
  }

  // ---------------------------------------------------------------- all events

  lemma AfterStart(env: Env, c: Case, e: Event, after: Case)
    requires Pipeline(c) && Decided(env, c) && Next(env, c, e) == Some(after)
    requires e.Sensing? || e.DiagnosisStart? || e.StageStart? || e.ActionStart? || e.Crash?
    ensures Decided(env, after)
  {
  }

  lemma AfterAdmission(env: Env, c: Case, request: Request, after: Case)
    requires Pipeline(c) && Decided(env, c) && Next(env, c, CallStart(request)) == Some(after)
    ensures Decided(env, after)
  {
    Admitted(env, c.db, request, after.calls[c.next]);
  }

  lemma DecidedKept(env: Env, c: Case, e: Event, after: Case)
    requires Pipeline(c) && Decided(env, c) && Next(env, c, e) == Some(after)
    ensures Decided(env, after)
  {
    match e
    case DiagnosisStep(p, d) =>
      DiagnoseQuiet(c.db, c.diagnosis.passes[p], d, Diagnose(c.db, c.diagnosis.passes[p], d).value);
      AfterQuiet(env, c, after);
    case StageStep(p, s) =>
      OrchestrateQuiet(env, c.db, c.stage.passes[p], s, Orchestrate(env, c.db, c.stage.passes[p], s).value);
      AfterQuiet(env, c, after);
    case ActionStep(p, a) => AfterAction(env, c, p, a, Act(env, c.db, c.log, p, c.action.passes[p], a).value, after);
    case CallStart(request) => AfterAdmission(env, c, request, after);
    case CallStep(k, a) =>
      if c.calls[k].Deciding? && a.SaveCall? {
        AfterDecision(env, c, k, Serve(c.db, c.log, c.calls[k], a).value, after);
      } else {
        AfterOtherCall(env, c, k, a, Serve(c.db, c.log, c.calls[k], a).value, after);
      }
    case Polling(q) =>
      PollQuiet(c.db, c.poll, q, Poll(c.db, c.poll, q).value);
      AfterQuiet(env, c, after);
    case _ => AfterStart(env, c, e, after);
  }
}
