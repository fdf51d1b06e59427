/** What every reachable incident satisfies, one concern at a time. */
module Invariant {
  import opened Wrappers
  import opened Mapping
  import opened Incidents
  import opened Protocol

  // ---------------------------------------------------------------- one pass at a time

  ghost predicate AtMostOne<T>(agent: Agent<T>, next: nat) {
    && (agent.busy <==> agent.passes.Keys != {})
    && (forall p :: p in agent.passes ==> p < next)
    && (forall p, q :: p in agent.passes && q in agent.passes ==> p == q)
  }

  /** The in-memory guards hold exactly while a pass runs, and never two passes run for one incident. */
  ghost predicate Exclusive(c: Case) {
    && AtMostOne(c.diagnosis, c.next)
    && AtMostOne(c.stage, c.next)
    && AtMostOne(c.action, c.next)
    && forall k :: k in c.calls ==> k < c.next
  }

  // ---------------------------------------------------------------- stages build on stages

  ghost predicate IsWithheld(d: Slice) {
    exists i :: 0 <= i < |d.history| && d.history[i].to == NeedsHumanReview
  }

  /** The columns that a status in the history presupposes. */
  predicate Backed(r: Record, status: Status) {
    match status
    case Open => false
    case Investigating => r.hypothesis.Some?
    case NeedsHumanReview => r.hypothesis.Some?
    case RiskAssessed => r.severity.Some?
    case Resolved => true
    case _ => r.actions.Some?
  }

  ghost predicate Ladder(d: Slice) {
    var r := d.record;
    && (r.hypothesis.Some? <==> r.confidence.Some?)
    && (r.confidence.Some? ==> 0 <= r.confidence.value <= 100)
    && (r.severity.Some? ==> r.hypothesis.Some? && !IsWithheld(d))
    && (r.severity.Some? <==> r.hitlLevel.Some?)
    && r.requiredLevel == r.hitlLevel
    && (r.hitlLevel.Some? ==> r.hitlLevel.value >= 1)
    && (r.actions.Some? ==> r.severity.Some?)
    && (IsWithheld(d) ==> r.hypothesis == Some(WITHHELD) && r.confidence == Some(0))
    && (IsWithheld(d) ==> forall i :: 0 <= i < |d.history| ==> d.history[i].to != Investigating)
    && (forall i :: 0 <= i < |d.history| ==> Backed(r, d.history[i].to))
    && r.status == StatusAfter(d.history)
  }

  /** The landing status agrees with the level it was routed by. */
  ghost predicate Gated(r: Record) {
    && (r.status == AutoInformed ==> r.hitlLevel.Some? && r.hitlLevel.value <= 1)
    && (r.status == AwaitingApproval ==> r.hitlLevel.Some? && r.hitlLevel.value >= 2)
  }

  ghost predicate DiagnosisReady(d: Slice, pc: DiagnosisPc) {
    var r := d.record;
    match pc
    case ReadingState => true
    case Diagnosing => r.hypothesis == None
    case SavingDiagnosis(hypothesis, confidence, accepted) =>
      && 0 <= confidence <= 100
      && (!accepted ==> hypothesis == WITHHELD && confidence == 0)
      && (r.hypothesis.Some? ==>
            r.hypothesis == Some(hypothesis) && r.confidence == Some(confidence) && (IsWithheld(d) <==> !accepted))
    case AnnouncingDiagnosis => r.hypothesis.Some? && !IsWithheld(d)
  }

  ghost predicate StageReady(d: Slice, pc: StagePc) {
    var r := d.record;
    match pc
    case RiskReading => r.hypothesis.Some? && !IsWithheld(d)
    case RiskSaving(_, level) => r.hypothesis.Some? && !IsWithheld(d) && level >= 1
    case RiskAnnouncing => r.severity.Some?
    case PlanReading => r.severity.Some?
    case Planning(level) => r.severity.Some? && r.hitlLevel == Some(level)
    case PlanSaving(level, _) => r.severity.Some? && r.hitlLevel == Some(level)
    case PlanAnnouncing(_) => r.actions.Some?
    case GateReading => r.actions.Some?
    case GateSaving(expected) => r.actions.Some? && r.hitlLevel.Some? && expected == Landing(r.hitlLevel.value)
  }

  /** A message implies that what it announces is stored. */
  ghost predicate Announced(d: Slice, bus: set<Message>) {
    && (StageDone(RootCauseStage) in bus ==> d.record.hypothesis.Some? && !IsWithheld(d))
    && (StageDone(RiskStage) in bus ==> d.record.severity.Some?)
    && (StageDone(RecommendationStage) in bus ==> d.record.actions.Some?)
  }

  ghost predicate Pipeline(c: Case) {
    && Ladder(c.db)
    && Gated(c.db.record)
    && Announced(c.db, c.bus)
    && (forall p :: p in c.diagnosis.passes ==> DiagnosisReady(c.db, c.diagnosis.passes[p]))
    && (forall p :: p in c.stage.passes ==> StageReady(c.db, c.stage.passes[p]))
  }

  // ---------------------------------------------------------------- decisions

  ghost predicate HasApproval(rows: seq<ApprovalRow>) {
    exists k :: 0 <= k < |rows| && rows[k].decision == Approve
  }

  /** The status was read as awaiting approval, by someone of the same site whose role covers the level. */
  ghost predicate Entitled(env: Env, d: Slice, principal: Principal, decision: Decision, level: int,
                           justification: string, observed: nat) {
    && SameSite(d.record.site, principal.site)
    && LevelFor(env, principal.role) >= level >= 2
    && (decision == Reject && level >= 3 ==> Justified(justification))
    && observed <= |d.history|
    && StatusAfter(d.history[..observed]) == AwaitingApproval
  }

  ghost predicate RightlyDecided(env: Env, d: Slice, row: ApprovalRow, who: Decider) {
    && who.principal.username == row.decidedBy
    && Entitled(env, d, who.principal, row.decision, row.level, row.justification, who.observed)
    && who.observed <= who.written < |d.history|
    && d.history[who.written] == HistoryRow(None, DecisionStatus(row.decision), row.decidedBy)
  }

  ghost predicate CallReady(env: Env, d: Slice, pc: CallPc) {
    match pc
    case Deciding(principal, decision, level, justification, observed) =>
      Entitled(env, d, principal, decision, level, justification, observed)
    case AnnouncingApproval => HasApproval(d.approvals)
    case Resolving(_) => true
  }

  /** The history, the approvals and the audit log tell the same decisions in the same order. */
  ghost predicate LogsAgree(d: Slice) {
    DecisionsInHistory(d.history) == DecisionsInApprovals(d.approvals) == DecisionsInAudit(d.audit)
  }

  ghost predicate AllRightlyDecided(env: Env, d: Slice, decided: seq<Decider>) {
    && |decided| == |d.approvals|
    && forall k :: 0 <= k < |decided| ==> RightlyDecided(env, d, d.approvals[k], decided[k])
  }

  ghost predicate CallsReady(env: Env, d: Slice, calls: map<nat, CallPc>) {
    forall k :: k in calls ==> CallReady(env, d, calls[k])
  }

  ghost predicate WritesCleared(approvals: seq<ApprovalRow>, cmms: seq<CmmsWrite>) {
    forall w :: 0 <= w < |cmms| ==>
      cmms[w].approvalsSeen <= |approvals| && HasApproval(approvals[..cmms[w].approvalsSeen])
  }

  /** Nothing that leads to, or is, an external write exists without an approval row. */
  ghost predicate Cleared(c: Case) {
    && (IncidentApproved in c.bus ==> HasApproval(c.db.approvals))
    && (c.db.record.status == Approved ==> HasApproval(c.db.approvals))
    && (forall p :: p in c.action.passes && c.action.passes[p] != ViewReading ==> HasApproval(c.db.approvals))
    && WritesCleared(c.db.approvals, c.log.cmms)
  }

  ghost predicate Decided(env: Env, c: Case) {
    && LogsAgree(c.db)
    && AllRightlyDecided(env, c.db, c.log.decided)
    && CallsReady(env, c.db, c.calls)
    && Cleared(c)
  }

  // ---------------------------------------------------------------- execution

  /** The rows a pass writes for the operations it has finished: pending first, then the outcome. */
  function PassRows(ops: seq<CmmsOperation>, outs: seq<OpResult>): seq<AttemptRow>
    requires |outs| <= |ops|
  {
    if outs == [] then []
    else
      var n := |outs| - 1;
      PassRows(ops, outs[..n])
        + [AttemptRow(ops[n], Pending, ""),
           if outs[n].Done? then AttemptRow(ops[n], Succeeded, outs[n].reference) else AttemptRow(ops[n], Failed, "")]
  }

  /** The open operation of a pass, if its pending row is already written. */
  function OpenRow(pc: ActionPc): seq<AttemptRow> {
    match pc
    case Calling(ops, outs, _, _) => if |outs| < |ops| then [AttemptRow(ops[|outs|], Pending, "")] else []
    case Recording(ops, outs, _, _) => if |outs| < |ops| then [AttemptRow(ops[|outs|], Pending, "")] else []
    case _ => []
  }

  predicate Running(pc: ActionPc) { pc.Opening? || pc.Calling? || pc.Recording? }

  ghost predicate PassReady(rows: seq<AttemptRow>, passes: seq<nat>, p: nat, pc: ActionPc) {
    Running(pc) ==>
      && |passes| == |rows|
      && |pc.outs| <= |pc.ops|
      && (pc.Opening? || |pc.outs| < |pc.ops|)
      && pc.ops != []
      && pc.start <= |rows|
      && rows[pc.start..] == PassRows(pc.ops, pc.outs) + OpenRow(pc)
      && (forall i :: pc.start <= i < |passes| ==> passes[i] == p)
      && (forall i :: 0 <= i < pc.start ==> rows[i].outcome != Succeeded)
  }

  ghost predicate EndedWell(rows: seq<AttemptRow>, passes: seq<nat>, e: EndedPass) {
    && |passes| == |rows|
    && e.start <= e.stop <= |rows|
    && e.ops != [] && |e.outs| == |e.ops|
    && rows[e.start..e.stop] == PassRows(e.ops, e.outs)
    && (forall i :: e.start <= i < e.stop ==> passes[i] == e.pass)
    && e.landed == (if AllDone(e.outs) then ActionTaken else ActionFailed)
  }

  /** A succeeded or failed row directly follows the pending row of the same operation and pass. */
  ghost predicate Preceded(rows: seq<AttemptRow>, passes: seq<nat>, i: nat)
    requires |passes| == |rows| && i < |rows|
  {
    rows[i].outcome != Pending ==>
      i > 0 && rows[i - 1] == AttemptRow(rows[i].operation, Pending, "") && passes[i - 1] == passes[i]
  }

  ghost predicate OnePassSucceeds(rows: seq<AttemptRow>, passes: seq<nat>)
    requires |passes| == |rows|
  {
    forall i, j | 0 <= i < j < |rows| && rows[i].outcome == rows[j].outcome == Succeeded :: passes[i] == passes[j]
  }

  /** The attempt table as a whole, with the pass behind each row. */
  ghost predicate WellAttempted(rows: seq<AttemptRow>, passes: seq<nat>, next: nat) {
    && |passes| == |rows|
    && (forall i :: 0 <= i < |passes| ==> passes[i] < next)
    && (forall i :: 0 <= i < |rows| ==> Preceded(rows, passes, i))
    && OnePassSucceeds(rows, passes)
  }

  ghost predicate Executions(c: Case) {
    && WellAttempted(c.db.attempts, c.log.attemptPass, c.next)
    && (forall p :: p in c.action.passes ==> PassReady(c.db.attempts, c.log.attemptPass, p, c.action.passes[p]))
    && (forall k :: 0 <= k < |c.log.ended| ==> EndedWell(c.db.attempts, c.log.attemptPass, c.log.ended[k]))
  }

  // ---------------------------------------------------------------- external writes

  /** The orders of the CMMS, each with the pass that placed it. */
  function Orders(cmms: seq<CmmsWrite>): seq<(nat, CmmsOperation)> {
    if cmms == [] then []
    else Orders(cmms[..|cmms| - 1]) + [(cmms[|cmms| - 1].pass, cmms[|cmms| - 1].operation)]
  }

  /** The succeeded rows, each with the pass that wrote it. */
  function Successes(rows: seq<AttemptRow>, passes: seq<nat>): seq<(nat, CmmsOperation)>
    requires |passes| == |rows|
  {
    if rows == [] then []
    else
      var n := |rows| - 1;
      Successes(rows[..n], passes[..n]) + if rows[n].outcome == Succeeded then [(passes[n], rows[n].operation)] else []
  }

  /** An accepted and answered order whose succeeded row is about to be written. */
  function Unrecorded(p: nat, pc: ActionPc): seq<(nat, CmmsOperation)> {
    if pc.Recording? && pc.result.Done? && |pc.outs| < |pc.ops| then [(p, pc.ops[|pc.outs|])] else []
  }

  /** `a` with some elements left out of `b`, in order. */
  predicate IsSubsequence<T(==)>(a: seq<T>, b: seq<T>) {
    if a == [] then true
    else if b == [] then false
    else if a[|a| - 1] == b[|b| - 1] then IsSubsequence(a[..|a| - 1], b[..|b| - 1])
    else IsSubsequence(a, b[..|b| - 1])
  }

  /** The external orders that the pending rows account for. */
  function Budget(rows: seq<AttemptRow>, perRow: nat): nat {
    if rows == [] then 0
    else Budget(rows[..|rows| - 1], perRow) + if rows[|rows| - 1].outcome == Pending then perRow else 0
  }

  /** The attempts the open operation has left. */
  function Spare(env: Env, pc: ActionPc): nat {
    if pc.Calling? && pc.attempt <= MaxAttempts(env) then MaxAttempts(env) + 1 - pc.attempt else 0
  }

  /** The CMMS holds the recorded orders in order, and besides them only those whose reply was lost. */
  ghost predicate Tallied(rows: seq<AttemptRow>, log: Log, inHand: seq<(nat, CmmsOperation)>) {
    && |log.attemptPass| == |rows|
    && var recorded := Successes(rows, log.attemptPass) + inHand;
       IsSubsequence(recorded, Orders(log.cmms)) && |log.cmms| == |recorded| + |log.lost|
  }

  /** Every external order is paid for by a pending row, at most one attempt bound for each. */
  ghost predicate Accounted(env: Env, rows: seq<AttemptRow>, log: Log, p: nat, pc: ActionPc) {
    && Tallied(rows, log, Unrecorded(p, pc))
    && (pc.Calling? ==> 1 <= pc.attempt <= MaxAttempts(env))
    && |log.cmms| + Spare(env, pc) <= Budget(rows, MaxAttempts(env))
  }

  ghost predicate Ordered(env: Env, c: Case) {
    && (c.action.passes == map[] ==> Accounted(env, c.db.attempts, c.log, 0, ViewReading))
    && (forall p :: p in c.action.passes ==> Accounted(env, c.db.attempts, c.log, p, c.action.passes[p]))
  }

  // ---------------------------------------------------------------- repeated orders

  predicate SucceededBy(rows: seq<AttemptRow>, passes: seq<nat>, p: nat) {
    exists i :: 0 <= i < |rows| && i < |passes| && rows[i].outcome == Succeeded && passes[i] == p
  }

  /** The latest order, whose answer the pass holds. */
  predicate InHand(log: Log, pc: ActionPc, w: nat) { Holding(pc) && w == |log.cmms| - 1 }

  /** An order is lost, answered within the slots that its pass has finished, or in hand. */
  ghost predicate Traced(rows: seq<AttemptRow>, log: Log, p: nat, pc: ActionPc, w: nat)
    requires w < |log.cmms|
  {
    || w in log.lost
    || InHand(log, pc, w)
    || (SucceededBy(rows, log.attemptPass, log.cmms[w].pass)
        && (log.cmms[w].pass == p ==> Running(pc) && log.cmms[w].slot < |pc.outs|))
  }

  /** Every order is traced, none is of a later pass, and only a lost one is followed by another at its slot. */
  ghost predicate AllTraced(rows: seq<AttemptRow>, log: Log, p: nat, pc: ActionPc) {
    && |log.attemptPass| == |rows|
    && (forall w: nat :: w < |log.cmms| ==> Traced(rows, log, p, pc, w) && log.cmms[w].pass <= p)
    && (forall l :: l in log.lost ==> l < |log.cmms|)
    && (Holding(pc) ==>
          log.cmms != [] && log.cmms[|log.cmms| - 1].pass == p && log.cmms[|log.cmms| - 1].slot == |pc.outs|)
    && RepeatsFollowLosses(log)
  }

  ghost predicate RepeatsFollowLosses(log: Log) {
    forall a: nat, b: nat | a < b < |log.cmms| && log.cmms[a].slot == log.cmms[b].slot :: a in log.lost
  }

  ghost predicate Repeats(c: Case) {
    && (forall w :: 0 <= w < |c.log.cmms| ==> c.log.cmms[w].pass < c.next)
    && (c.action.passes == map[] ==> AllTraced(c.db.attempts, c.log, c.next, ViewReading))
    && (forall p :: p in c.action.passes ==> AllTraced(c.db.attempts, c.log, p, c.action.passes[p]))
  }

  // ---------------------------------------------------------------- where the pipeline starts

  /** The diagnosis is announced by the pass that stored it, before any stage runs, and never again. */
  ghost predicate Sourced(c: Case) {
    && (c.db.record.severity.Some? || c.stage.passes != map[] ==> StageDone(RootCauseStage) in c.bus)
    && (forall p :: p in c.diagnosis.passes && StageDone(RootCauseStage) in c.bus ==> c.diagnosis.passes[p] == ReadingState)
  }

  // ---------------------------------------------------------------- the levels

  /** The level that the risk rules give for the incident's confidence is the one stored, or about to be. */
  ghost predicate Assessed(env: Env, c: Case) {
    var r := c.db.record;
    && (r.severity.Some? ==> r.hitlLevel == r.requiredLevel == Some(Risk.Level(env.hitl, r.severity.value, r.confidence)))
    && forall p :: p in c.stage.passes && c.stage.passes[p].RiskSaving? ==>
         c.stage.passes[p].level == Risk.Level(env.hitl, c.stage.passes[p].severity, r.confidence)
  }

  // ---------------------------------------------------------------- closing the loop

  ghost predicate Closing(c: Case) {
    && |c.db.learned| == CountAudit(c.db.audit, LoopClosed) <= 1
    && (c.poll.Counted? ==> CountAudit(c.db.audit, LoopClosed) == 0)
    && (c.poll != PollIdle ==> HasWorkOrder(c.db.attempts))
    && (c.db.learned != [] ==> HasWorkOrder(c.db.attempts))
  }

  ghost predicate Inv(env: Env, c: Case) {
    && Exclusive(c) && Pipeline(c) && Sourced(c) && Assessed(env, c) && Decided(env, c)
    && Executions(c) && Ordered(env, c) && Repeats(c) && Closing(c)
  }
}
