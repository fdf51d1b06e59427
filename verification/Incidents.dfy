/** One incident's share of the database: its row, and its rows of every append-only table in commit
    order. Each function below is one committed transaction of the store. */
module Incidents {
  import opened Wrappers
  import opened Mapping
  import Risk

  datatype Status =
    | Open | Investigating | RiskAssessed | Recommended | AwaitingApproval | AutoInformed
    | Approved | ActionTaken | ActionFailed | Rejected | NeedsHumanReview | Resolved

  datatype Record = Record(
    site: string,
    equipment: string,
    status: Status,
    hypothesis: Option<string>,
    confidence: Option<int>,
    severity: Option<Risk.Severity>,
    hitlLevel: Option<int>,
    requiredLevel: Option<int>,
    actions: Option<seq<RecommendedAction>>)

  datatype HistoryRow = HistoryRow(from: Option<Status>, to: Status, actor: string)

  datatype Decision = Approve | Reject

  datatype ApprovalRow = ApprovalRow(decision: Decision, decidedBy: string, level: int, justification: string)

  datatype AuditKind = HitlDecision(decision: Decision) | ActionExecuted | IncidentResolved | LoopClosed

  datatype AuditRow = AuditRow(kind: AuditKind, actor: string)

  datatype Outcome = Pending | Succeeded | Failed

  datatype AttemptRow = AttemptRow(operation: CmmsOperation, outcome: Outcome, reference: string)

  /** A row of the historical incidents, written when the learning loop closes. */
  datatype LearnedRow = LearnedRow(rootCause: string)

  datatype Slice = Slice(
    record: Record,
    history: seq<HistoryRow>,
    approvals: seq<ApprovalRow>,
    audit: seq<AuditRow>,
    attempts: seq<AttemptRow>,
    learned: seq<LearnedRow>)

  function Fresh(site: string, equipment: string): Slice {
    Slice(Record(site, equipment, Open, None, None, None, None, None, None), [], [], [], [], [])
  }

  function DecisionStatus(decision: Decision): Status {
    if decision == Approve then Approved else Rejected
  }

  /** The status column changes together with its history row. */
  function Move(d: Slice, to: Status, actor: string): Slice {
    d.(record := d.record.(status := to), history := d.history + [HistoryRow(None, to, actor)])
  }

  function SaveRootCause(d: Slice, hypothesis: string, confidence: int, status: Status): Slice {
    var moved := Move(d, status, "root-cause-agent");
    moved.(record := moved.record.(hypothesis := Some(hypothesis), confidence := Some(confidence)))
  }

  function TransitionIncident(d: Slice, to: Status, actor: string): Slice {
    Move(d, to, actor)
  }

  function SaveRiskAssessment(d: Slice, severity: Risk.Severity, hitlLevel: int, requiredLevel: int): Slice {
    var moved := Move(d, RiskAssessed, "risk-agent");
    moved.(record := moved.record.(severity := Some(severity), hitlLevel := Some(hitlLevel),
                                   requiredLevel := Some(requiredLevel)))
  }

  /** Two history rows in one transaction: the recommendation, then the HITL routing. */
  function SaveRecommendation(d: Slice, actions: seq<RecommendedAction>, next: Status): Slice {
    d.(record := d.record.(actions := Some(actions), status := next),
       history := d.history + [HistoryRow(None, Recommended, "recommendation-agent"),
                               HistoryRow(Some(Recommended), next, "hitl-gate")])
  }

  function RecordApproval(d: Slice, decision: Decision, decidedBy: string, level: int, justification: string): Slice {
    var moved := Move(d, DecisionStatus(decision), decidedBy);
    moved.(approvals := d.approvals + [ApprovalRow(decision, decidedBy, level, justification)],
           audit := d.audit + [AuditRow(HitlDecision(decision), decidedBy)])
  }

  function RecordActionExecution(d: Slice, operation: CmmsOperation, outcome: Outcome, reference: string): Slice {
    d.(attempts := d.attempts + [AttemptRow(operation, outcome, reference)])
  }

  /** `executed` is false for the calls that pass no executions (reconciliation, nothing to execute). */
  function SaveActionResult(d: Slice, status: Status, executed: bool): Slice {
    var moved := Move(d, status, "action-agent");
    if status == ActionTaken && executed
    then moved.(audit := d.audit + [AuditRow(ActionExecuted, "action-agent")])
    else moved
  }

  function ResolveManually(d: Slice, resolvedBy: string): Slice {
    var moved := Move(d, Resolved, resolvedBy);
    moved.(audit := d.audit + [AuditRow(IncidentResolved, resolvedBy)])
  }

  function CloseLoop(d: Slice, rootCause: string): Slice {
    var moved := Move(d, Resolved, "action-agent");
    moved.(audit := d.audit + [AuditRow(LoopClosed, "action-agent")],
           learned := d.learned + [LearnedRow(rootCause)])
  }

  // ---------------------------------------------------------------- queries

  predicate Executed(d: Slice) {
    exists i :: 0 <= i < |d.attempts| && d.attempts[i].outcome == Succeeded
  }

  function CountAudit(rows: seq<AuditRow>, kind: AuditKind): nat {
    if rows == [] then 0
    else CountAudit(rows[..|rows| - 1], kind) + if rows[|rows| - 1].kind == kind then 1 else 0
  }

  // ---------------------------------------------------------------- reading the logs back

  /** The status that the first rows of the history describe. */
  function StatusAfter(history: seq<HistoryRow>): Status {
    if history == [] then Open else history[|history| - 1].to
  }

  /** The decisions, with their deciders, as each of the three logs tells them. */
  function DecisionsInHistory(rows: seq<HistoryRow>): seq<(Decision, string)> {
    if rows == [] then []
    else
      var last := rows[|rows| - 1];
      DecisionsInHistory(rows[..|rows| - 1])
        + if last.to == Approved then [(Approve, last.actor)]
          else if last.to == Rejected then [(Reject, last.actor)]
          else []
  }

  function DecisionsInApprovals(rows: seq<ApprovalRow>): seq<(Decision, string)> {
    if rows == [] then []
    else DecisionsInApprovals(rows[..|rows| - 1]) + [(rows[|rows| - 1].decision, rows[|rows| - 1].decidedBy)]
  }

  function DecisionsInAudit(rows: seq<AuditRow>): seq<(Decision, string)> {
    if rows == [] then []
    else
      var last := rows[|rows| - 1];
      DecisionsInAudit(rows[..|rows| - 1])
        + if last.kind.HitlDecision? then [(last.kind.decision, last.actor)] else []
  }
}
