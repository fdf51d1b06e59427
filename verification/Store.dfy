/** The incident store: one map of incident rows and the append-only tables, all keyed by incident.
    Every transaction acts on one incident's slice as the matching function of `Incidents`
    says, and leaves every other incident's slice alone. */
module Store {
  import opened Wrappers
  import opened Mapping
  import opened Incidents

  type Id = nat

  /** The rows of one table that belong to one incident, in commit order. */
  function Rows<T>(table: seq<(Id, T)>, id: Id): seq<T> {
    if table == [] then []
    else
      var last := table[|table| - 1];
      Rows(table[..|table| - 1], id) + if last.0 == id then [last.1] else []
  }

  lemma RowsAppend<T>(table: seq<(Id, T)>, id: Id, owner: Id, row: T)
    ensures Rows(table + [(owner, row)], id) == if owner == id then Rows(table, id) + [row] else Rows(table, id)
  {
    assert (table + [(owner, row)])[..|table|] == table;
  }

  lemma RowsAppendForAll<T>(table: seq<(Id, T)>, owner: Id, row: T)
    ensures Rows(table + [(owner, row)], owner) == Rows(table, owner) + [row]
    ensures forall id :: id != owner ==> Rows(table + [(owner, row)], id) == Rows(table, id)
  {
    RowsAppend(table, owner, owner, row);
    forall id | id != owner ensures Rows(table + [(owner, row)], id) == Rows(table, id) {
      RowsAppend(table, id, owner, row);
    }
  }

  lemma CountNext(audit: seq<(Id, AuditRow)>, i: nat, id: Id)
    requires i < |audit|
    ensures CountAudit(Rows(audit[..i + 1], id), LoopClosed) == CountAudit(Rows(audit[..i], id), LoopClosed)
      + if audit[i].0 == id && audit[i].1.kind == LoopClosed then 1 else 0
  {
    var rows := Rows(audit[..i], id);
    assert audit[..i + 1] == audit[..i] + [(audit[i].0, audit[i].1)];
    RowsAppend(audit[..i], id, audit[i].0, audit[i].1);
    assert (rows + [audit[i].1])[..|rows|] == rows;
  }

  predicate KindSucceeded(rows: seq<AttemptRow>, kind: Kind) {
    exists k :: 0 <= k < |rows| && rows[k].outcome == Succeeded && rows[k].operation.kind == kind
  }

  lemma KindSucceededAppend(rows: seq<AttemptRow>, row: AttemptRow)
    ensures forall kind ::
      KindSucceeded(rows + [row], kind) <==> KindSucceeded(rows, kind) || (row.outcome == Succeeded && row.operation.kind == kind)
  {
    forall kind
      ensures KindSucceeded(rows + [row], kind)
        <==> KindSucceeded(rows, kind) || (row.outcome == Succeeded && row.operation.kind == kind)
    {
      var longer := rows + [row];
      assert longer[|rows|] == row;
      assert forall k :: 0 <= k < |rows| ==> longer[k] == rows[k];
    }
  }

  lemma KindsOfExecuted(rows: seq<AttemptRow>)
    ensures (exists kind :: KindSucceeded(rows, kind)) <==> (exists k :: 0 <= k < |rows| && rows[k].outcome == Succeeded)
  {
    if k :| 0 <= k < |rows| && rows[k].outcome == Succeeded { assert KindSucceeded(rows, rows[k].operation.kind); }
  }

  class IncidentStore {
    var incidents: map<Id, Record>
    var history: seq<(Id, HistoryRow)>
    var approvals: seq<(Id, ApprovalRow)>
    var audit: seq<(Id, AuditRow)>
    var attempts: seq<(Id, AttemptRow)>
    var learned: seq<(Id, LearnedRow)>

    constructor ()
      ensures incidents == map[] && history == [] && approvals == [] && audit == [] && attempts == [] && learned == []
    {
      incidents, history, approvals, audit, attempts, learned := map[], [], [], [], [], [];
    }

    ghost function SliceOf(id: Id): Slice
      requires id in incidents
      reads this
    {
      Slice(incidents[id], Rows(history, id), Rows(approvals, id), Rows(audit, id), Rows(attempts, id), Rows(learned, id))
    }

    /** The transaction found no row, or it took the incident's slice to `after` and touched no other. */
    twostate predicate Committed(id: Id, after: Slice)
      reads this
    {
      && incidents.Keys == old(incidents.Keys)
      && id in incidents && SliceOf(id) == after
      && forall other :: other in incidents && other != id ==> SliceOf(other) == old(SliceOf(other))
    }

    twostate predicate Untouched()
      reads this
    {
      incidents == old(incidents) && history == old(history) && approvals == old(approvals)
      && audit == old(audit) && attempts == old(attempts) && learned == old(learned)
    }

    method AppendHistory(id: Id, row: HistoryRow)
      modifies this`history
      ensures Rows(history, id) == old(Rows(history, id)) + [row]
      ensures forall other :: other != id ==> Rows(history, other) == old(Rows(history, other))
    {
      RowsAppendForAll(history, id, row);
      history := history + [(id, row)];
    }

    method AppendAudit(id: Id, row: AuditRow)
      modifies this`audit
      ensures Rows(audit, id) == old(Rows(audit, id)) + [row]
      ensures forall other :: other != id ==> Rows(audit, other) == old(Rows(audit, other))
    {
      RowsAppendForAll(audit, id, row);
      audit := audit + [(id, row)];
    }

    predicate ActiveFor(id: Id, equipment: string)
      reads this
    {
      id in incidents && incidents[id].equipment == equipment && incidents[id].status != Resolved
    }

    ghost predicate OneActive()
      reads this
    {
      forall q, a, b | ActiveFor(a, q) && ActiveFor(b, q) :: a == b
    }

    /** Folds into an incident of the equipment that is not resolved, or opens a new one; either way the
        equipment has exactly the returned one active, if it had at most one before. */
    method UpsertIncident(site: string, equipment: string, newId: Id) returns (id: Id)
      requires newId !in incidents
      modifies this`incidents
      ensures ActiveFor(id, equipment)
      ensures id != newId ==> id in old(incidents) && incidents == old(incidents)
      ensures id == newId ==>
        incidents == old(incidents)[newId := Record(site, equipment, Open, None, None, None, None, None, None)]
      ensures id == newId <==> forall other :: !old(ActiveFor(other, equipment))
      ensures old(OneActive()) ==> OneActive()
    {
      var open := set i | i in incidents && incidents[i].equipment == equipment && incidents[i].status != Resolved;
      if open != {} {
        id :| id in open;
        assert ActiveFor(id, equipment);
      } else {
        id := newId;
        assert forall other :: ActiveFor(other, equipment) ==> other in open;
        incidents := incidents[id := Fresh(site, equipment).record];
        forall q, a, b | old(OneActive()) && ActiveFor(a, q) && ActiveFor(b, q) ensures a == b {
          assert a != id ==> old(ActiveFor(a, q));
          assert b != id ==> old(ActiveFor(b, q));
        }
      }
    }

    method SaveRootCause(id: Id, hypothesis: string, confidence: int, status: Status) returns (ok: bool)
      modifies this
      ensures ok == (id in old(incidents))
      ensures !ok ==> Untouched()
      ensures ok ==> Committed(id, Incidents.SaveRootCause(old(SliceOf(id)), hypothesis, confidence, status))
      ensures ok ==>
        incidents[id] == old(incidents)[id].(hypothesis := Some(hypothesis), confidence := Some(confidence), status := status)
      ensures ok ==> Rows(history, id) == old(Rows(history, id)) + [HistoryRow(None, status, "root-cause-agent")]
    {
      if id !in incidents { return false; }
      incidents := incidents[id := incidents[id].(hypothesis := Some(hypothesis), confidence := Some(confidence), status := status)];
      AppendHistory(id, HistoryRow(None, status, "root-cause-agent"));
      return true;
    }

    method TransitionIncident(id: Id, to: Status, actor: string) returns (ok: bool)
      modifies this
      ensures ok == (id in old(incidents))
      ensures !ok ==> Untouched()
      ensures ok ==> Committed(id, Incidents.TransitionIncident(old(SliceOf(id)), to, actor))
      ensures ok ==> incidents[id] == old(incidents)[id].(status := to)
      ensures ok ==> Rows(history, id) == old(Rows(history, id)) + [HistoryRow(None, to, actor)]
    {
      if id !in incidents { return false; }
      incidents := incidents[id := incidents[id].(status := to)];
      AppendHistory(id, HistoryRow(None, to, actor));
      return true;
    }

    method SaveRiskAssessment(id: Id, severity: Risk.Severity, hitlLevel: int, requiredLevel: int) returns (ok: bool)
      modifies this
      ensures ok == (id in old(incidents))
      ensures !ok ==> Untouched()
      ensures ok ==> Committed(id, Incidents.SaveRiskAssessment(old(SliceOf(id)), severity, hitlLevel, requiredLevel))
      ensures ok ==>
        incidents[id] == old(incidents)[id].(severity := Some(severity), hitlLevel := Some(hitlLevel),
                                             requiredLevel := Some(requiredLevel), status := RiskAssessed)
      ensures ok ==> Rows(history, id) == old(Rows(history, id)) + [HistoryRow(None, RiskAssessed, "risk-agent")]
    {
      if id !in incidents { return false; }
      incidents := incidents[id := incidents[id].(severity := Some(severity), hitlLevel := Some(hitlLevel),
                                                  requiredLevel := Some(requiredLevel), status := RiskAssessed)];
      AppendHistory(id, HistoryRow(None, RiskAssessed, "risk-agent"));
      return true;
    }

    method SaveRecommendation(id: Id, actions: seq<RecommendedAction>, next: Status) returns (ok: bool)
      modifies this
      ensures ok == (id in old(incidents))
      ensures !ok ==> Untouched()
      ensures ok ==> Committed(id, Incidents.SaveRecommendation(old(SliceOf(id)), actions, next))
      ensures ok ==> incidents[id] == old(incidents)[id].(actions := Some(actions), status := next)
      ensures ok ==>
        Rows(history, id) == old(Rows(history, id))
          + [HistoryRow(None, Recommended, "recommendation-agent"), HistoryRow(Some(Recommended), next, "hitl-gate")]
    {
      if id !in incidents { return false; }
      incidents := incidents[id := incidents[id].(actions := Some(actions), status := Recommended)];
      AppendHistory(id, HistoryRow(None, Recommended, "recommendation-agent"));
      incidents := incidents[id := incidents[id].(status := next)];
      AppendHistory(id, HistoryRow(Some(Recommended), next, "hitl-gate"));
      return true;
    }

    method RecordApproval(id: Id, decision: Decision, decidedBy: string, level: int, justification: string)
        returns (ok: bool)
      modifies this
      ensures ok == (id in old(incidents))
      ensures !ok ==> Untouched()
      ensures ok ==> Committed(id, Incidents.RecordApproval(old(SliceOf(id)), decision, decidedBy, level, justification))
      ensures ok ==> incidents[id] == old(incidents)[id].(status := if decision == Approve then Approved else Rejected)
      ensures ok ==> Rows(history, id) == old(Rows(history, id)) + [HistoryRow(None, incidents[id].status, decidedBy)]
      ensures ok ==>
        Rows(approvals, id) == old(Rows(approvals, id)) + [ApprovalRow(decision, decidedBy, level, justification)]
      ensures ok ==> Rows(audit, id) == old(Rows(audit, id)) + [AuditRow(HitlDecision(decision), decidedBy)]
    {
      if id !in incidents { return false; }
      incidents := incidents[id := incidents[id].(status := DecisionStatus(decision))];
      AppendHistory(id, HistoryRow(None, DecisionStatus(decision), decidedBy));
      RowsAppendForAll(approvals, id, ApprovalRow(decision, decidedBy, level, justification));
      approvals := approvals + [(id, ApprovalRow(decision, decidedBy, level, justification))];
      AppendAudit(id, AuditRow(HitlDecision(decision), decidedBy));
      return true;
    }

    /** The attempt table has no check on the incident row. */
    method RecordActionExecution(id: Id, operation: CmmsOperation, outcome: Outcome, reference: string)
      requires id in incidents
      modifies this
      ensures Committed(id, Incidents.RecordActionExecution(old(SliceOf(id)), operation, outcome, reference))
      ensures incidents == old(incidents)
      ensures Rows(attempts, id) == old(Rows(attempts, id)) + [AttemptRow(operation, outcome, reference)]
    {
      RowsAppendForAll(attempts, id, AttemptRow(operation, outcome, reference));
      attempts := attempts + [(id, AttemptRow(operation, outcome, reference))];
    }

    /** The idempotency guard's query: the kinds of this incident's operations that have succeeded. */
    method GetExecutedActionKinds(id: Id) returns (kinds: set<Kind>)
      ensures forall kind :: kind in kinds <==> KindSucceeded(Rows(attempts, id), kind)
      ensures id in incidents ==> (kinds != {} <==> Executed(SliceOf(id)))
    {
      kinds := {};
      for i := 0 to |attempts|
        invariant forall kind :: kind in kinds <==> KindSucceeded(Rows(attempts[..i], id), kind)
      {
        assert attempts[..i + 1] == attempts[..i] + [(attempts[i].0, attempts[i].1)];
        RowsAppend(attempts[..i], id, attempts[i].0, attempts[i].1);
        KindSucceededAppend(Rows(attempts[..i], id), attempts[i].1);
        if attempts[i].0 == id && attempts[i].1.outcome == Succeeded {
          kinds := kinds + {attempts[i].1.operation.kind};
        }
      }
      assert attempts[..|attempts|] == attempts;
      KindsOfExecuted(Rows(attempts, id));
    }

    method SaveActionResult(id: Id, status: Status, executed: bool) returns (ok: bool)
      modifies this
      ensures ok == (id in old(incidents))
      ensures !ok ==> Untouched()
      ensures ok ==> Committed(id, Incidents.SaveActionResult(old(SliceOf(id)), status, executed))
      ensures ok ==> incidents[id] == old(incidents)[id].(status := status)
      ensures ok ==> Rows(history, id) == old(Rows(history, id)) + [HistoryRow(None, status, "action-agent")]
      ensures ok ==>
        Rows(audit, id) == old(Rows(audit, id))
          + if status == ActionTaken && executed then [AuditRow(ActionExecuted, "action-agent")] else []
    {
      if id !in incidents { return false; }
      incidents := incidents[id := incidents[id].(status := status)];
      AppendHistory(id, HistoryRow(None, status, "action-agent"));
      if status == ActionTaken && executed {
        AppendAudit(id, AuditRow(ActionExecuted, "action-agent"));
      }
      return true;
    }

    method ResolveIncidentManually(id: Id, resolvedBy: string) returns (ok: bool)
      modifies this
      ensures ok == (id in old(incidents))
      ensures !ok ==> Untouched()
      ensures ok ==> Committed(id, Incidents.ResolveManually(old(SliceOf(id)), resolvedBy))
      ensures ok ==> incidents[id] == old(incidents)[id].(status := Resolved)
      ensures ok ==> Rows(history, id) == old(Rows(history, id)) + [HistoryRow(None, Resolved, resolvedBy)]
      ensures ok ==> Rows(audit, id) == old(Rows(audit, id)) + [AuditRow(IncidentResolved, resolvedBy)]
    {
      if id !in incidents { return false; }
      incidents := incidents[id := incidents[id].(status := Resolved)];
      AppendHistory(id, HistoryRow(None, Resolved, resolvedBy));
      AppendAudit(id, AuditRow(IncidentResolved, resolvedBy));
      return true;
    }

    method CountLoopClosed(id: Id) returns (count: nat)
      ensures count == CountAudit(Rows(audit, id), LoopClosed)
    {
      count := 0;
      for i := 0 to |audit|
        invariant count == CountAudit(Rows(audit[..i], id), LoopClosed)
      {
        CountNext(audit, i, id);
        if audit[i].0 == id && audit[i].1.kind == LoopClosed { count := count + 1; }
      }
      assert audit[..|audit|] == audit;
    }

    method CloseIncident(id: Id, rootCause: string)
      requires id in incidents
      modifies this
      ensures Committed(id, CloseLoop(old(SliceOf(id)), rootCause))
      ensures incidents[id] == old(incidents)[id].(status := Resolved)
      ensures Rows(history, id) == old(Rows(history, id)) + [HistoryRow(None, Resolved, "action-agent")]
      ensures Rows(audit, id) == old(Rows(audit, id)) + [AuditRow(LoopClosed, "action-agent")]
      ensures Rows(learned, id) == old(Rows(learned, id)) + [LearnedRow(rootCause)]
    {
      incidents := incidents[id := incidents[id].(status := Resolved)];
      AppendHistory(id, HistoryRow(None, Resolved, "action-agent"));
      AppendAudit(id, AuditRow(LoopClosed, "action-agent"));
      RowsAppendForAll(learned, id, LearnedRow(rootCause));
      learned := learned + [(id, LearnedRow(rootCause))];
    }

    /** A duplicate poll is a no-op; otherwise the incident is resolved and its record learned. */
    method CloseIncidentLoop(id: Id, rootCause: string) returns (ok: bool)
      modifies this
      ensures ok == (id in old(incidents) && CountAudit(old(Rows(audit, id)), LoopClosed) == 0)
      ensures !ok ==> Untouched()
      ensures ok ==> Committed(id, CloseLoop(old(SliceOf(id)), rootCause))
      ensures ok ==> incidents[id] == old(incidents)[id].(status := Resolved)
      ensures ok ==> Rows(history, id) == old(Rows(history, id)) + [HistoryRow(None, Resolved, "action-agent")]
      ensures ok ==> Rows(audit, id) == old(Rows(audit, id)) + [AuditRow(LoopClosed, "action-agent")]
      ensures ok ==> Rows(learned, id) == old(Rows(learned, id)) + [LearnedRow(rootCause)]
    {
      var existing := CountLoopClosed(id);
      if existing > 0 || id !in incidents { return false; }
      CloseIncident(id, rootCause);
      return true;
    }
  }
}
