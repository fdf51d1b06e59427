/** What the invariant says about one incident, in the terms of the people who run the plant. */
module CaseSafety {
  import opened Wrappers
  import opened Mapping
  import opened Incidents
  import opened Protocol
  import opened Invariant
  import opened DecisionSteps
  import opened ExecutionSteps
  import OrderSteps

  // ---------------------------------------------------------------- approvals

  lemma WriteApproved(env: Env, c: Case, w: nat) returns (k: nat)
    requires Decided(env, c) && w < |c.log.cmms|
    ensures k < c.log.cmms[w].approvalsSeen <= |c.db.approvals| == |c.log.decided|
    ensures c.db.approvals[k].decision == Approve && RightlyDecided(env, c.db, c.db.approvals[k], c.log.decided[k])
  {
    var seen := c.log.cmms[w].approvalsSeen;
    assert HasApproval(c.db.approvals[..seen]);
    k :| 0 <= k < seen && c.db.approvals[..seen][k].decision == Approve;
  }

  lemma AttemptNeedsPass(env: Env, d: Slice, log: Log, p: nat, pc: ActionPc, event: ActionEvent, x: ActionEffect)
    requires Act(env, d, log, p, pc, event) == Some(x) && x.log.cmms != log.cmms
    ensures pc != ViewReading
  {
  }

  lemma WriteNeedsApproval(env: Env, c: Case, e: Event, after: Case)
    requires Cleared(c) && Next(env, c, e) == Some(after) && after.log.cmms != c.log.cmms
    ensures HasApproval(c.db.approvals)
  {
    match e
    case ActionStep(p, a) =>
      AttemptNeedsPass(env, c.db, c.log, p, c.action.passes[p], a, Act(env, c.db, c.log, p, c.action.passes[p], a).value);
    case ActionStart =>
    case Crash =>
    case _ => ActionFrame.OthersLeave(env, c, e, after);
  }

  predicate IsDecision(c: Case, e: Event) {
    e.CallStep? && e.call == SaveCall && e.pass in c.calls && c.calls[e.pass].Deciding?
  }

  lemma CallQuiet(d: Slice, log: Log, pc: CallPc, event: CallEvent, x: CallEffect)
    requires Serve(d, log, pc, event) == Some(x) && !(pc.Deciding? && event == SaveCall)
    ensures Quiet(d, x.db)
  {
    if event == SaveCall { ResolveQuiet(d, pc.username); }
  }

  lemma QuietUnlessDecision(env: Env, c: Case, e: Event, after: Case)
    requires Pipeline(c) && Next(env, c, e) == Some(after) && !IsDecision(c, e)
    ensures Quiet(c.db, after.db)
  {
    match e
    case DiagnosisStep(p, d) => DiagnoseQuiet(c.db, c.diagnosis.passes[p], d, Diagnose(c.db, c.diagnosis.passes[p], d).value);
    case StageStep(p, s) => OrchestrateQuiet(env, c.db, c.stage.passes[p], s, Orchestrate(env, c.db, c.stage.passes[p], s).value);
    case ActionStep(p, a) => ActQuiet(env, c.db, c.log, p, c.action.passes[p], a, Act(env, c.db, c.log, p, c.action.passes[p], a).value);
    case CallStep(k, a) => CallQuiet(c.db, c.log, c.calls[k], a, Serve(c.db, c.log, c.calls[k], a).value);
    case Polling(q) => PollQuiet(c.db, c.poll, q, Poll(c.db, c.poll, q).value);
    case _ =>
  }

  lemma LandedByLevel(c: Case)
    requires Pipeline(c)
    ensures c.db.record.requiredLevel == c.db.record.hitlLevel
    ensures c.db.record.status == AutoInformed ==> c.db.record.hitlLevel == Some(1)
    ensures c.db.record.status == AwaitingApproval ==> c.db.record.hitlLevel.Some? && c.db.record.hitlLevel.value >= 2
  {
  }

  // ---------------------------------------------------------------- withheld diagnoses

  lemma WithheldIsFinal(env: Env, c: Case)
    requires Pipeline(c) && Decided(env, c) && IsWithheld(c.db)
    ensures c.db.record.severity == None && c.db.record.actions == None
    ensures c.db.approvals == [] && c.log.cmms == []
    ensures c.db.record.status in {NeedsHumanReview, Resolved}
  {
    if c.db.approvals != [] {
      assert RightlyDecided(env, c.db, c.db.approvals[0], c.log.decided[0]);
      PipelineSteps.ObservedIsBacked(c.db, c.log.decided[0].observed);
    }
    if c.log.cmms != [] { var k := WriteApproved(env, c, 0); }
    assert Backed(c.db.record, c.db.history[|c.db.history| - 1].to);
  }

  // ---------------------------------------------------------------- executions

  function CountOutcome(rows: seq<AttemptRow>, outcome: Outcome): nat {
    if rows == [] then 0
    else CountOutcome(rows[..|rows| - 1], outcome) + if rows[|rows| - 1].outcome == outcome then 1 else 0
  }

  lemma CountAppend(rows: seq<AttemptRow>, row: AttemptRow, outcome: Outcome)
    ensures CountOutcome(rows + [row], outcome) == CountOutcome(rows, outcome) + if row.outcome == outcome then 1 else 0
  {
    assert (rows + [row])[..|rows|] == rows;
  }

  lemma PairCounted(rows: seq<AttemptRow>, operation: CmmsOperation, result: OpResult, outcome: Outcome)
    ensures CountOutcome(rows + [AttemptRow(operation, Pending, ""), OutcomeRow(operation, result)], outcome)
      == CountOutcome(rows, outcome)
         + (if outcome == Pending || outcome == OutcomeRow(operation, result).outcome then 1 else 0)
  {
    var pending := AttemptRow(operation, Pending, "");
    CountAppend(rows, pending, outcome);
    CountAppend(rows + [pending], OutcomeRow(operation, result), outcome);
    assert rows + [pending, OutcomeRow(operation, result)] == (rows + [pending]) + [OutcomeRow(operation, result)];
  }

  lemma {:induction false} PassLedger(ops: seq<CmmsOperation>, outs: seq<OpResult>)
    requires |outs| <= |ops|
    ensures CountOutcome(PassRows(ops, outs), Pending) == |outs|
    ensures CountOutcome(PassRows(ops, outs), Succeeded) + CountOutcome(PassRows(ops, outs), Failed) == |outs|
    ensures AllDone(outs) <==> CountOutcome(PassRows(ops, outs), Failed) == 0
  {
    if outs != [] {
      var n := |outs| - 1;
      PassLedger(ops, outs[..n]);
      var before := PassRows(ops, outs[..n]);
      PairCounted(before, ops[n], outs[n], Pending);
      PairCounted(before, ops[n], outs[n], Succeeded);
      PairCounted(before, ops[n], outs[n], Failed);
      assert AllDone(outs) <==> AllDone(outs[..n]) && outs[n].Done?;
    }
  }

  // ---------------------------------------------------------------- external orders

  lemma {:induction false} BudgetCounts(rows: seq<AttemptRow>, perRow: nat)
    ensures Budget(rows, perRow) == perRow * CountOutcome(rows, Pending)
  {
    if rows != [] { BudgetCounts(rows[..|rows| - 1], perRow); }
  }

  /** No reply is on its way from the CMMS to the attempt table. */
  ghost predicate NothingInHand(c: Case) {
    forall p :: p in c.action.passes ==> Unrecorded(p, c.action.passes[p]) == []
  }

  lemma TallyOf(env: Env, c: Case)
    requires Ordered(env, c) && NothingInHand(c)
    ensures Tallied(c.db.attempts, c.log, [])
    ensures |c.log.cmms| <= Budget(c.db.attempts, MaxAttempts(env))
  {
    if p :| p in c.action.passes { assert Accounted(env, c.db.attempts, c.log, p, c.action.passes[p]); }
  }

  lemma {:induction false} OrdersLength(cmms: seq<CmmsWrite>)
    ensures |Orders(cmms)| == |cmms|
  {
    if cmms != [] { OrdersLength(cmms[..|cmms| - 1]); }
  }

  lemma OrdersMatch(env: Env, c: Case)
    requires Ordered(env, c) && NothingInHand(c)
    ensures |c.log.attemptPass| == |c.db.attempts|
    ensures Orders(c.log.cmms) == Successes(c.db.attempts, c.log.attemptPass) <==> c.log.lost == []
  {
    TallyOf(env, c);
    var recorded := Successes(c.db.attempts, c.log.attemptPass);
    assert recorded + [] == recorded;
    OrdersLength(c.log.cmms);
    OrderSteps.FullSubsequence(recorded, Orders(c.log.cmms));
  }

  lemma {:induction false} SuccessesFrom(rows: seq<AttemptRow>, passes: seq<nat>, k: nat) returns (i: nat)
    requires |passes| == |rows| && k < |Successes(rows, passes)|
    ensures i < |rows| && rows[i].outcome == Succeeded && Successes(rows, passes)[k] == (passes[i], rows[i].operation)
  {
    var n := |rows| - 1;
    if k < |Successes(rows[..n], passes[..n])| { i := SuccessesFrom(rows[..n], passes[..n], k); } else { i := n; }
  }

  lemma {:induction false} SuccessIsListed(rows: seq<AttemptRow>, passes: seq<nat>, i: nat)
    requires |passes| == |rows| && i < |rows| && rows[i].outcome == Succeeded
    ensures Successes(rows, passes) != []
  {
    if i < |rows| - 1 { SuccessIsListed(rows[..|rows| - 1], passes[..|rows| - 1], i); }
  }

  lemma {:induction false} OrderAt(cmms: seq<CmmsWrite>, a: nat)
    requires a < |cmms|
    ensures a < |Orders(cmms)| && Orders(cmms)[a] == (cmms[a].pass, cmms[a].operation)
  {
    var n := |cmms| - 1;
    OrdersLength(cmms[..n]);
    if a < n { OrderAt(cmms[..n], a); }
  }

  lemma SamePass(env: Env, c: Case, a: nat, b: nat)
    requires Executions(c) && Ordered(env, c) && NothingInHand(c) && c.log.lost == [] && a < b < |c.log.cmms|
    ensures c.log.cmms[a].pass == c.log.cmms[b].pass
  {
    OrdersMatch(env, c);
    OrderAt(c.log.cmms, a);
    OrderAt(c.log.cmms, b);
    var i := SuccessesFrom(c.db.attempts, c.log.attemptPass, a);
    var j := SuccessesFrom(c.db.attempts, c.log.attemptPass, b);
  }

  lemma Bounded(env: Env, c: Case)
    requires Ordered(env, c)
    ensures |c.log.cmms| <= MaxAttempts(env) * CountOutcome(c.db.attempts, Pending)
  {
    BudgetCounts(c.db.attempts, MaxAttempts(env));
    if p :| p in c.action.passes { assert Accounted(env, c.db.attempts, c.log, p, c.action.passes[p]); }
  }

  lemma LearnedIsApproved(env: Env, c: Case)
    requires Closing(c) && Ordered(env, c) && Decided(env, c) && c.db.learned != []
    ensures HasApproval(c.db.approvals) && c.log.cmms != []
  {
    var i :| 0 <= i < |c.db.attempts| && IsWorkOrder(c.db.attempts[i]);
    SuccessIsListedIn(env, c, i);
    var k := WriteApproved(env, c, 0);
  }

  lemma SuccessIsListedIn(env: Env, c: Case, i: nat)
    requires Ordered(env, c) && i < |c.db.attempts| && c.db.attempts[i].outcome == Succeeded
    ensures c.log.cmms != []
  {
    if p :| p in c.action.passes { assert Accounted(env, c.db.attempts, c.log, p, c.action.passes[p]); }
    SuccessIsListed(c.db.attempts, c.log.attemptPass, i);
  }
}

/** What holds of every incident in every state of every run. */
module Safety {
  import opened Wrappers
  import opened Incidents
  import opened Protocol
  import opened Invariant
  import opened Runs
  import opened CaseSafety
  import Risk

  ghost predicate Reached(env: Env, events: seq<SysEvent>, states: seq<Sys>, i: nat, id: Id) {
    IsRun(env, events, states) && i < |states| && id in states[i]
  }

  // ---------------------------------------------------------------- human approval comes first

  /** Every order the CMMS accepted has an approval row older than itself, written by a person of the
      incident's site whose role covers the row's level, after the incident was seen awaiting approval. */
  lemma ExternalWriteWasApproved(env: Env, events: seq<SysEvent>, states: seq<Sys>, i: nat, id: Id, w: nat)
      returns (k: nat)
    requires Reached(env, events, states, i, id) && w < |states[i][id].log.cmms|
    ensures
      var c := states[i][id];
      && k < c.log.cmms[w].approvalsSeen <= |c.db.approvals| == |c.log.decided|
      && c.db.approvals[k].decision == Approve
      && RightlyDecided(env, c.db, c.db.approvals[k], c.log.decided[k])
  {
    RunKeeps(env, events, states, i, id);
    k := WriteApproved(env, states[i][id], w);
  }

  /** The step at which the CMMS accepts an order starts from a state with an approval row. */
  lemma ApprovalPrecedesWrite(env: Env, events: seq<SysEvent>, states: seq<Sys>, i: nat, id: Id)
    requires Reached(env, events, states, i, id) && i + 1 < |states|
    requires id in states[i + 1] && states[i + 1][id].log.cmms != states[i][id].log.cmms
    ensures HasApproval(states[i][id].db.approvals)
  {
    OnlyOneIncident(env, states[i], events[i], states[i + 1], id);
    RunKeeps(env, events, states, i, id);
    WriteNeedsApproval(env, states[i][id], events[i].event, states[i + 1][id]);
  }

  /** Only a decision call writes an approval or makes an incident approved; no automated step does. */
  lemma OnlyPeopleApprove(env: Env, events: seq<SysEvent>, states: seq<Sys>, i: nat, id: Id)
    requires Reached(env, events, states, i, id) && i + 1 < |states| && id in states[i + 1]
    requires states[i + 1][id].db.approvals != states[i][id].db.approvals
      || (states[i + 1][id].db.record.status == Approved && states[i][id].db.record.status != Approved)
    ensures events[i].On? && events[i].id == id && IsDecision(states[i][id], events[i].event)
  {
    OnlyOneIncident(env, states[i], events[i], states[i + 1], id);
    RunKeeps(env, events, states, i, id);
    if !IsDecision(states[i][id], events[i].event) {
      QuietUnlessDecision(env, states[i][id], events[i].event, states[i + 1][id]);
    }
  }

  // ---------------------------------------------------------------- stages depend on stages

  predicate AfterRecommendation(status: Status) {
    status in {AwaitingApproval, AutoInformed, Approved, Rejected, ActionTaken, ActionFailed}
  }

  /** An incident that has ever been past its recommendation has a diagnosis that was not withheld, a
      risk assessment with its levels, and a recommendation. */
  lemma StagesComplete(env: Env, events: seq<SysEvent>, states: seq<Sys>, i: nat, id: Id, t: nat)
    requires Reached(env, events, states, i, id)
    requires t < |states[i][id].db.history| && AfterRecommendation(states[i][id].db.history[t].to)
    ensures
      var d := states[i][id].db;
      && d.record.hypothesis.Some? && d.record.confidence.Some? && !IsWithheld(d)
      && d.record.severity.Some? && d.record.hitlLevel.Some? && d.record.requiredLevel == d.record.hitlLevel
      && d.record.actions.Some?
  {
    RunKeeps(env, events, states, i, id);
    assert Backed(states[i][id].db.record, states[i][id].db.history[t].to);
  }

  /** Messages in flight never run ahead of the store. */
  lemma MessagesImplyStages(env: Env, events: seq<SysEvent>, states: seq<Sys>, i: nat, id: Id)
    requires Reached(env, events, states, i, id)
    ensures Announced(states[i][id].db, states[i][id].bus)
    ensures IncidentApproved in states[i][id].bus ==> HasApproval(states[i][id].db.approvals)
  {
    RunKeeps(env, events, states, i, id);
  }

  /** The landing status agrees with the stored level, through repeated passes and late gates. */
  lemma GateHolds(env: Env, events: seq<SysEvent>, states: seq<Sys>, i: nat, id: Id)
    requires Reached(env, events, states, i, id)
    ensures
      var r := states[i][id].db.record;
      && r.requiredLevel == r.hitlLevel
      && (r.status == AutoInformed ==> r.hitlLevel == Some(1))
      && (r.status == AwaitingApproval ==> r.hitlLevel.Some? && r.hitlLevel.value >= 2)
  {
    RunKeeps(env, events, states, i, id);
    LandedByLevel(states[i][id]);
  }

  /** In every state both level columns hold the greatest level that the rules demand for the stored severity and
      confidence, whatever is redelivered or retried. */
  lemma LevelFollowsRisk(env: Env, events: seq<SysEvent>, states: seq<Sys>, i: nat, id: Id)
    requires Reached(env, events, states, i, id) && states[i][id].db.record.severity.Some?
    ensures
      var r := states[i][id].db.record;
      && r.hitlLevel.Some? && r.requiredLevel == r.hitlLevel
      && Risk.IsGreatestDemanded(env.hitl, r.severity.value, r.confidence, r.hitlLevel.value)
  {
    RunKeeps(env, events, states, i, id);
    Risk.LevelIsGreatestDemanded(env.hitl, states[i][id].db.record.severity.value, states[i][id].db.record.confidence);
  }

  // ---------------------------------------------------------------- diagnosis

  /** Once stored, the hypothesis and its confidence never change, whatever is redelivered or retried. */
  lemma DiagnosisNeverChanges(env: Env, events: seq<SysEvent>, states: seq<Sys>, i: nat, j: nat, id: Id)
    requires Reached(env, events, states, i, id) && i <= j < |states| && states[i][id].db.record.hypothesis.Some?
    ensures id in states[j]
    ensures states[j][id].db.record.hypothesis == states[i][id].db.record.hypothesis
    ensures states[j][id].db.record.confidence == states[i][id].db.record.confidence
  {
    RunGrows(env, events, states, i, j, id);
  }

  lemma WithheldStays(d: Slice, e: Slice)
    requires d.history <= e.history && IsWithheld(d)
    ensures IsWithheld(e)
  {
    var t :| 0 <= t < |d.history| && d.history[t].to == NeedsHumanReview;
    assert e.history[t] == d.history[t];
  }

  /** A withheld diagnosis stops the pipeline for good. */
  lemma WithheldStopsPipeline(env: Env, events: seq<SysEvent>, states: seq<Sys>, i: nat, j: nat, id: Id)
    requires Reached(env, events, states, i, id) && i <= j < |states| && IsWithheld(states[i][id].db)
    ensures id in states[j]
    ensures
      var c := states[j][id];
      && c.db.record.severity == None && c.db.record.actions == None
      && c.db.approvals == [] && c.log.cmms == []
      && c.db.record.status in {NeedsHumanReview, Resolved}
  {
    RunGrows(env, events, states, i, j, id);
    WithheldStays(states[i][id].db, states[j][id].db);
    RunKeeps(env, events, states, j, id);
    WithheldIsFinal(env, states[j][id]);
  }

  // ---------------------------------------------------------------- execution

  /** All successes of an incident come from one pass of the Action Agent, however often it was
      triggered, and every outcome row directly follows the pending row of its operation. */
  lemma OneSuccessfulPass(env: Env, events: seq<SysEvent>, states: seq<Sys>, i: nat, id: Id)
    requires Reached(env, events, states, i, id)
    ensures WellAttempted(states[i][id].db.attempts, states[i][id].log.attemptPass, states[i][id].next)
  {
    RunKeeps(env, events, states, i, id);
  }

  /** A pass that ran to its end wrote one pending and one outcome row for each operation, and landed on
      `action_taken` exactly when none failed. */
  lemma EndedPassLedger(env: Env, events: seq<SysEvent>, states: seq<Sys>, i: nat, id: Id, k: nat)
    requires Reached(env, events, states, i, id) && k < |states[i][id].log.ended|
    ensures
      var c, e := states[i][id], states[i][id].log.ended[k];
      && e.start <= e.stop <= |c.db.attempts|
      && var rows := c.db.attempts[e.start..e.stop];
         && CountOutcome(rows, Pending) == CountOutcome(rows, Succeeded) + CountOutcome(rows, Failed) == |e.ops|
         && e.landed == (if CountOutcome(rows, Failed) == 0 then ActionTaken else ActionFailed)
  {
    RunKeeps(env, events, states, i, id);
    var c, e := states[i][id], states[i][id].log.ended[k];
    assert EndedWell(c.db.attempts, c.log.attemptPass, e);
    PassLedger(e.ops, e.outs);
  }

  /** The CMMS holds exactly one order for each succeeded row, in the same order, if and only if no
      accepted order has lost its reply on the way to the attempt table. */
  lemma OneOrderPerSuccess(env: Env, events: seq<SysEvent>, states: seq<Sys>, i: nat, id: Id)
    requires Reached(env, events, states, i, id) && NothingInHand(states[i][id])
    ensures
      var c := states[i][id];
      && |c.log.attemptPass| == |c.db.attempts|
      && (Orders(c.log.cmms) == Successes(c.db.attempts, c.log.attemptPass) <==> c.log.lost == [])
  {
    RunKeeps(env, events, states, i, id);
    OrdersMatch(env, states[i][id]);
  }

  /** Then all orders come from one pass. */
  lemma OrdersFromOnePass(env: Env, events: seq<SysEvent>, states: seq<Sys>, i: nat, id: Id, a: nat, b: nat)
    requires Reached(env, events, states, i, id) && NothingInHand(states[i][id]) && states[i][id].log.lost == []
    requires a < b < |states[i][id].log.cmms|
    ensures states[i][id].log.cmms[a].pass == states[i][id].log.cmms[b].pass
  {
    RunKeeps(env, events, states, i, id);
    SamePass(env, states[i][id], a, b);
  }

  /** However many retries, crashes and repeated passes: an incident never has more external orders than
      the attempt bound for each pending row. */
  lemma OrdersBounded(env: Env, events: seq<SysEvent>, states: seq<Sys>, i: nat, id: Id)
    requires Reached(env, events, states, i, id)
    ensures
      var bound := if env.retryAttempts >= 1 then env.retryAttempts else 1;
      |states[i][id].log.cmms| <= bound * CountOutcome(states[i][id].db.attempts, Pending)
  {
    RunKeeps(env, events, states, i, id);
    Bounded(env, states[i][id]);
  }

  // ---------------------------------------------------------------- logs

  /** Status, history, approvals and audit log never contradict one another. */
  lemma LogsTellTheSame(env: Env, events: seq<SysEvent>, states: seq<Sys>, i: nat, id: Id)
    requires Reached(env, events, states, i, id)
    ensures states[i][id].db.record.status == StatusAfter(states[i][id].db.history)
    ensures LogsAgree(states[i][id].db)
  {
    RunKeeps(env, events, states, i, id);
  }

  /** What is learned is learned once, and only from work a person approved. */
  lemma LearnedOnce(env: Env, events: seq<SysEvent>, states: seq<Sys>, i: nat, id: Id)
    requires Reached(env, events, states, i, id)
    ensures |states[i][id].db.learned| == CountAudit(states[i][id].db.audit, LoopClosed) <= 1
    ensures states[i][id].db.learned != [] ==> HasApproval(states[i][id].db.approvals) && states[i][id].log.cmms != []
    ensures states[i][id].db.learned != [] ==>
      exists k :: 0 <= k < |states[i][id].db.attempts|
                  && states[i][id].db.attempts[k].outcome == Succeeded && states[i][id].db.attempts[k].reference != ""
                  && states[i][id].db.attempts[k].operation.kind.WorkOrder?
  {
    RunKeeps(env, events, states, i, id);
    if states[i][id].db.learned != [] { LearnedIsApproved(env, states[i][id]); }
  }
}
