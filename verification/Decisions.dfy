/** Who may decide or resolve an incident, in the terms of the stored row and the caller's token. */
module Entitlement {
  import opened Wrappers
  import opened Text
  import opened Incidents
  import opened Protocol

  predicate NoLevel(level: Option<int>) { level == None || level == Some(0) }

  /** The level at which an incident is decided: the stored one, the required one when it is absent or zero, and
      two when both are. */
  ghost predicate DecidedAt(r: Record, level: int) {
    && (!NoLevel(r.hitlLevel) ==> r.hitlLevel == Some(level))
    && (NoLevel(r.hitlLevel) && !NoLevel(r.requiredLevel) ==> r.requiredLevel == Some(level))
    && (NoLevel(r.hitlLevel) && NoLevel(r.requiredLevel) ==> level == 2)
  }

  /** A colleague at the incident's site whose role covers the level, with a reason for a rejection from level 3 up. */
  ghost predicate Covers(env: Env, r: Record, who: Principal, level: int, decision: Decision, reason: string) {
    && SameIgnoringCase(r.site, who.site)
    && (if who.role in env.approvalLevels then env.approvalLevels[who.role] >= level else 0 >= level)
    && (decision == Reject && level >= 3 ==> exists i :: 0 <= i < |reason| && !IsSpace(reason[i]))
  }

  lemma DecisionLevelIs(r: Record)
    ensures DecidedAt(r, DecisionLevel(r))
    ensures forall level :: DecidedAt(r, level) ==> level == DecisionLevel(r)
  {
  }

  /** The decision endpoint lets a caller in if and only if the incident awaits approval and the caller covers
      the level at which it is decided. */
  lemma MayDecideIff(env: Env, r: Record, who: Principal, decision: Decision, reason: string, level: int)
    requires DecidedAt(r, level)
    ensures MayDecide(env, r, who, decision, reason)
      <==> r.status == AwaitingApproval && Covers(env, r, who, level, decision, reason)
  {
    LowerIff(r.site, who.site);
    BlankIff(reason);
  }

  /** A manual resolution is let in if and only if the role may resolve, the site is the incident's, and the
      incident is not resolved yet. */
  lemma MayResolveIff(env: Env, r: Record, who: Principal)
    ensures MayResolve(env, r, who)
      <==> who.role in env.resolveRoles && SameIgnoringCase(r.site, who.site) && r.status != Resolved
  {
    LowerIff(r.site, who.site);
  }
}

/** Who decided what: every decision row, and every external order, back to the request that was let in. */
module Decisions {
  import opened Wrappers
  import opened Text
  import opened Incidents
  import opened Protocol
  import opened Invariant
  import opened Runs
  import opened Entitlement
  import opened CaseSafety
  import opened Safety
  import GrowthSteps

  // ---------------------------------------------------------------- back to the request

  /** The request for this decision, let in at the stored level. */
  ghost predicate LetIn(env: Env, e: SysEvent, c: Case, id: Id, who: Principal, decision: Decision, level: int,
                        reason: string) {
    && e == On(id, CallStart(Decide(who, decision, reason)))
    && c.db.record.status == AwaitingApproval && c.db.record.hitlLevel == Some(level)
    && who.role in env.approvalLevels && env.approvalLevels[who.role] >= level >= 2
    && Covers(env, c.db.record, who, level, decision, reason)
  }

  lemma AdmissionIsLetIn(env: Env, c: Case, id: Id, request: Request, pc: CallPc)
    requires Pipeline(c) && Admit(env, c.db, request) == Some(pc) && pc.Deciding?
    ensures LetIn(env, On(id, CallStart(request)), c, id, pc.principal, pc.decision, pc.level, pc.justification)
  {
    DecisionLevelIs(c.db.record);
    MayDecideIff(env, c.db.record, pc.principal, pc.decision, pc.justification, pc.level);
  }

  /** What one event does to the calls in progress: a decision is in progress since it was let in. */
  lemma CallsChange(env: Env, c: Case, e: Event, after: Case, k: nat)
    requires Next(env, c, e) == Some(after) && k in after.calls && after.calls[k].Deciding?
    ensures (k in c.calls && c.calls[k] == after.calls[k])
         || (e.CallStart? && Admit(env, c.db, e.request) == Some(after.calls[k]))
  {
  }

  /** At step `i` of the run the request for this decision row was let in, with its level. */
  ghost predicate LetInAt(env: Env, events: seq<SysEvent>, states: seq<Sys>, i: nat, id: Id, row: ApprovalRow, who: Principal) {
    && i < |events| && i < |states| && id in states[i] && row.decidedBy == who.username
    && LetIn(env, events[i], states[i][id], id, who, row.decision, row.level, row.justification)
  }

  function RowOf(pc: CallPc): ApprovalRow
    requires pc.Deciding?
  {
    ApprovalRow(pc.decision, pc.principal.username, pc.level, pc.justification)
  }

  lemma {:induction false} CallWasLetIn(env: Env, events: seq<SysEvent>, states: seq<Sys>, j: nat, id: Id, k: nat)
      returns (i: nat)
    requires Reached(env, events, states, j, id) && k in states[j][id].calls && states[j][id].calls[k].Deciding?
    ensures i < j && LetInAt(env, events, states, i, id, RowOf(states[j][id].calls[k]), states[j][id].calls[k].principal)
    decreases j
  {
    var e := events[j - 1];
    OnlyOneIncident(env, states[j - 1], e, states[j], id);
    if e.id != id {
      i := CallWasLetIn(env, events, states, j - 1, id, k);
    } else {
      CallsChange(env, states[j - 1][id], e.event, states[j][id], k);
      if k in states[j - 1][id].calls && states[j - 1][id].calls[k] == states[j][id].calls[k] {
        i := CallWasLetIn(env, events, states, j - 1, id, k);
      } else {
        RunKeeps(env, events, states, j - 1, id);
        i := j - 1;
        AdmissionIsLetIn(env, states[i][id], id, e.event.request, states[j][id].calls[k]);
      }
    }
  }

  lemma DecisionAdds(env: Env, c: Case, e: Event, after: Case)
    requires IsDecision(c, e) && Next(env, c, e) == Some(after)
    ensures
      var pc := c.calls[e.pass];
      && after.db.approvals == c.db.approvals + [RowOf(pc)]
      && after.log.decided == c.log.decided + [Decider(pc.principal, pc.observed, |c.db.history|)]
  {
  }

  lemma OthersAddNothing(env: Env, c: Case, e: Event, after: Case)
    requires Pipeline(c) && Next(env, c, e) == Some(after) && !IsDecision(c, e)
    ensures after.db.approvals == c.db.approvals && after.log.decided == c.log.decided
  {
    QuietUnlessDecision(env, c, e, after);
    if e.ActionStep? { ActionDecidesNothing(env, c, e.pass, e.action, after); }
  }

  /** Only a decision call adds a row, and then its own. */
  lemma RowsChange(env: Env, c: Case, e: Event, after: Case)
    requires Pipeline(c) && Next(env, c, e) == Some(after)
    ensures !IsDecision(c, e) ==> after.db.approvals == c.db.approvals && after.log.decided == c.log.decided
    ensures IsDecision(c, e) ==>
      var pc := c.calls[e.pass];
      && after.db.approvals == c.db.approvals + [RowOf(pc)]
      && after.log.decided == c.log.decided + [Decider(pc.principal, pc.observed, |c.db.history|)]
  {
    if IsDecision(c, e) { DecisionAdds(env, c, e, after); } else { OthersAddNothing(env, c, e, after); }
  }

  lemma ActionDecidesNothing(env: Env, c: Case, p: nat, a: ActionEvent, after: Case)
    requires Next(env, c, ActionStep(p, a)) == Some(after)
    ensures after.log.decided == c.log.decided
  {
    var x := Act(env, c.db, c.log, p, c.action.passes[p], a).value;
    GrowthSteps.ActLogGrows(env, c.db, c.log, p, c.action.passes[p], a, x);
  }

  lemma RunRows(env: Env, events: seq<SysEvent>, states: seq<Sys>, j: nat, id: Id)
    requires Reached(env, events, states, j, id)
    ensures |states[j][id].log.decided| == |states[j][id].db.approvals|
  {
    RunKeeps(env, events, states, j, id);
  }

  lemma RunRowsChange(env: Env, events: seq<SysEvent>, states: seq<Sys>, i: nat, id: Id)
    requires Reached(env, events, states, i, id) && i + 1 < |states| && id in states[i + 1] && events[i].id == id
    ensures events[i].On? && Next(env, states[i][id], events[i].event) == Some(states[i + 1][id])
    ensures
      var c, after, e := states[i][id], states[i + 1][id], events[i].event;
      if IsDecision(c, e) then
        && after.db.approvals == c.db.approvals + [RowOf(c.calls[e.pass])]
        && |after.log.decided| == |c.log.decided| + 1 && c.log.decided <= after.log.decided
        && after.log.decided[|c.log.decided|].principal == c.calls[e.pass].principal
      else after.db.approvals == c.db.approvals && after.log.decided == c.log.decided
  {
    OnlyOneIncident(env, states[i], events[i], states[i + 1], id);
    RunKeeps(env, events, states, i, id);
    RowsChange(env, states[i][id], events[i].event, states[i + 1][id]);
  }

  /** Every decision row goes back to a request of the person it names, let in at an earlier state of the run,
      with exactly the level stored then, which the person's role covers. */
  lemma {:induction false} DecisionWasLetIn(env: Env, events: seq<SysEvent>, states: seq<Sys>, j: nat, id: Id, n: nat)
      returns (i: nat)
    requires Reached(env, events, states, j, id) && n < |states[j][id].db.approvals|
    ensures |states[j][id].log.decided| == |states[j][id].db.approvals|
    ensures i < j
      && LetInAt(env, events, states, i, id, states[j][id].db.approvals[n], states[j][id].log.decided[n].principal)
    decreases j
  {
    RunRows(env, events, states, j, id);
    OnlyOneIncident(env, states[j - 1], events[j - 1], states[j], id);
    if events[j - 1].id == id {
      RunRows(env, events, states, j - 1, id);
      RunRowsChange(env, events, states, j - 1, id);
    }
    if n < |states[j - 1][id].db.approvals| {
      i := DecisionWasLetIn(env, events, states, j - 1, id, n);
    } else {
      i := CallWasLetIn(env, events, states, j - 1, id, events[j - 1].event.pass);
    }
  }

  /** So does every order that the CMMS accepted: behind it is an approval, recorded before it, that someone gave
      whose role covered the level stored at that time. */
  lemma OrderWasCleared(env: Env, events: seq<SysEvent>, states: seq<Sys>, j: nat, id: Id, w: nat)
      returns (i: nat, n: nat, who: Principal)
    requires Reached(env, events, states, j, id) && w < |states[j][id].log.cmms|
    ensures i < j && n < states[j][id].log.cmms[w].approvalsSeen <= |states[j][id].db.approvals|
    ensures states[j][id].db.approvals[n].decision == Approve
    ensures LetInAt(env, events, states, i, id, states[j][id].db.approvals[n], who)
  {
    n := ExternalWriteWasApproved(env, events, states, j, id, w);
    i := DecisionWasLetIn(env, events, states, j, id, n);
    who := states[j][id].log.decided[n].principal;
  }

  lemma StartedIsAdmitted(env: Env, c: Case, request: Request, after: Case)
    requires Next(env, c, CallStart(request)) == Some(after)
    ensures Admit(env, c.db, request).Some?
  {
  }

  /** Without a reason, nobody rejects an incident that stands at level 3 or above. */
  lemma RejectionNeedsReason(env: Env, events: seq<SysEvent>, states: seq<Sys>, i: nat, id: Id, who: Principal,
                             reason: string)
    requires Reached(env, events, states, i, id) && i < |events|
    requires events[i] == On(id, CallStart(Decide(who, Reject, reason)))
    requires states[i][id].db.record.hitlLevel.Some? && states[i][id].db.record.hitlLevel.value >= 3
    ensures exists k :: 0 <= k < |reason| && !IsSpace(reason[k])
  {
    RunKeeps(env, events, states, i, id);
    OnlyOneIncident(env, states[i], events[i], states[i + 1], id);
    StartedIsAdmitted(env, states[i][id], events[i].event.request, states[i + 1][id]);
    AdmissionIsLetIn(env, states[i][id], id, Decide(who, Reject, reason),
                     Admit(env, states[i][id].db, Decide(who, Reject, reason)).value);
  }
}
