/** The incident pipeline as a protocol: what one event does to one incident.

    Every awaited database or CMMS call is an event of its own, so that the agents, the API calls and
    the resolution poller interleave at every await. Messages are a set that only grows: a message may
    be delivered late, several times, in any order, or never. Any pass may be dropped at any await
    (an exception that ends it), and a crash drops all of them with their in-memory guards. */
module Protocol {
  import opened Wrappers
  import opened Text
  import opened Mapping
  import opened Incidents

  datatype Env = Env(hitl: Risk.Config, approvalLevels: map<string, int>, resolveRoles: set<string>, retryAttempts: nat)

  /** A validated token: who calls, in which role, for which site. */
  datatype Principal = Principal(site: string, role: string, username: string)

  datatype Stage = RootCauseStage | RiskStage | RecommendationStage

  datatype Message = AnomalyDetected | EvidenceCollected | StageDone(stage: Stage) | IncidentApproved

  // What each running pass will do at its next await.

  datatype DiagnosisPc =
    | ReadingState
    | Diagnosing
    | SavingDiagnosis(hypothesis: string, confidence: int, accepted: bool)
    | AnnouncingDiagnosis

  datatype StagePc =
    | RiskReading
    | RiskSaving(severity: Risk.Severity, level: int)
    | RiskAnnouncing
    | PlanReading
    | Planning(level: int)
    | PlanSaving(level: int, actions: seq<RecommendedAction>)
    | PlanAnnouncing(byAgent: bool)
    | GateReading
    | GateSaving(expected: Status)

  /** What became of one external operation: its CMMS reference, or a refusal after all retries. */
  datatype OpResult = Done(reference: string) | Refused

  datatype ActionPc =
    | ViewReading
    | Guarding(actions: seq<RecommendedAction>)
    | Reconciling
    | NothingToExecute
    | Opening(ops: seq<CmmsOperation>, outs: seq<OpResult>, start: nat)
    | Calling(ops: seq<CmmsOperation>, outs: seq<OpResult>, start: nat, attempt: nat)
    | Recording(ops: seq<CmmsOperation>, outs: seq<OpResult>, start: nat, result: OpResult)

  datatype CallPc =
    | Deciding(principal: Principal, decision: Decision, level: int, justification: string, observed: nat)
    | AnnouncingApproval
    | Resolving(username: string)

  datatype PollPc = PollIdle | Viewed(rootCause: string) | Counted(rootCause: string)

  // What the run has done so far, for the statements about it.

  /** Who took a decision; how long the history was when the status was read and when it was written. */
  datatype Decider = Decider(principal: Principal, observed: nat, written: nat)

  /** An order the CMMS accepted, for the operation at `slot` of a pass, with the number of approval rows that
      existed by then. */
  datatype CmmsWrite = CmmsWrite(pass: nat, slot: nat, operation: CmmsOperation, approvalsSeen: nat)

  /** A pass of the Action Agent that executed its operations to the end. */
  datatype EndedPass = EndedPass(pass: nat, ops: seq<CmmsOperation>, outs: seq<OpResult>, start: nat, stop: nat, landed: Status)

  datatype Log = Log(
    decided: seq<Decider>,       // one for each approval row
    attemptPass: seq<nat>,       // one for each attempt row: the pass that wrote it
    cmms: seq<CmmsWrite>,
    ended: seq<EndedPass>,
    lost: seq<nat>)              // positions of accepted orders whose reply never reached the attempt table

  /** One agent's in-memory guard for the incident and its running passes. */
  datatype Agent<T> = Agent(busy: bool, passes: map<nat, T>)

  datatype Case = Case(
    db: Slice,
    bus: set<Message>,
    diagnosis: Agent<DiagnosisPc>,
    stage: Agent<StagePc>,
    action: Agent<ActionPc>,
    calls: map<nat, CallPc>,
    poll: PollPc,
    next: nat,
    log: Log)

  function Idle<T>(): Agent<T> { Agent(false, map[]) }

  function NewCase(site: string, equipment: string): Case {
    Case(Fresh(site, equipment), {AnomalyDetected}, Idle(), Idle(), Idle(), map[], PollIdle, 0, Log([], [], [], [], []))
  }

  /** A pass begins: the guard is checked and set with no await in between. */
  function Begin<T>(agent: Agent<T>, p: nat, pc: T): Agent<T> {
    Agent(true, agent.passes[p := pc])
  }

  /** A pass goes on, or ends and clears the guard. */
  function Continue<T>(agent: Agent<T>, p: nat, rest: Option<T>): Agent<T> {
    if rest.Some? then Agent(agent.busy, agent.passes[p := rest.value]) else Agent(false, agent.passes - {p})
  }

  /** What one step of a pass does to the store and the bus, and how the pass goes on. */
  datatype Effect<T> = Effect(db: Slice, publish: set<Message>, rest: Option<T>)

  // ---------------------------------------------------------------- shared rules

  const WITHHELD := "Automatic diagnosis withheld: model output failed the evidence-citation check. Requires human review."

  /** `int(level or 2)`: an absent or zero level counts as 2. */
  function OrTwo(level: Option<int>): int {
    if level.Some? && level.value != 0 then level.value else 2
  }

  /** The status the HITL gate routes a level to. */
  function Landing(level: int): Status {
    if level <= 1 then AutoInformed else AwaitingApproval
  }

  function DecisionLevel(r: Record): int {
    if r.hitlLevel.Some? && r.hitlLevel.value != 0 then r.hitlLevel.value else OrTwo(r.requiredLevel)
  }

  function LevelFor(env: Env, role: string): int {
    if role in env.approvalLevels then env.approvalLevels[role] else 0
  }

  /** The CMMS client makes at least one attempt, whatever it is configured with. */
  function MaxAttempts(env: Env): nat {
    if env.retryAttempts >= 1 then env.retryAttempts else 1
  }

  predicate SameSite(a: string, b: string) { Lower(a) == Lower(b) }

  predicate Justified(justification: string) { Strip(justification) != "" }

  /** The states from which a stage or a person may move an incident on, as the state machine documents them. */
  function ValidTransitions(status: Status): set<Status> {
    match status
    case Open => {Investigating, NeedsHumanReview, Resolved}
    case Investigating => {RiskAssessed, NeedsHumanReview, Resolved}
    case RiskAssessed => {Recommended, NeedsHumanReview, Resolved}
    case Recommended => {AwaitingApproval, AutoInformed, NeedsHumanReview, Resolved}
    case AwaitingApproval => {Approved, Rejected, Resolved}
    case AutoInformed => {Resolved}
    case Approved => {ActionTaken, ActionFailed, Resolved}
    case ActionTaken => {Resolved}
    case ActionFailed => {ActionTaken, Resolved}
    case Rejected => {Resolved, Investigating}
    case NeedsHumanReview => {Investigating, Resolved}
    case Resolved => {}
  }

  // ---------------------------------------------------------------- detection and knowledge

  /** The Detection Agent folds into an incident that is not resolved; the Knowledge Agent follows up. */
  datatype SenseEvent = Redetected | EvidenceReady

  predicate CanSense(c: Case, e: SenseEvent) {
    match e
    case Redetected => c.db.record.status != Resolved
    case EvidenceReady => AnomalyDetected in c.bus
  }

  // ---------------------------------------------------------------- Root-Cause Agent

  datatype Verdict = Accepted(hypothesis: string, confidence: int) | Withheld

  datatype DiagnosisEvent =
    | ReadState
    | Answer(verdict: Verdict)
    | SaveDiagnosis(repeat: bool)   // repeat: committed, but reported as failed and so retried
    | AnnounceDiagnosis
    | DropDiagnosis

  function Diagnose(d: Slice, pc: DiagnosisPc, e: DiagnosisEvent): Option<Effect<DiagnosisPc>> {
    match (e, pc)
    case (ReadState, ReadingState) =>
      Some(Effect(d, {}, if d.record.hypothesis.Some? then None else Some(Diagnosing)))
    case (Answer(verdict), Diagnosing) =>
      if verdict.Withheld? then Some(Effect(d, {}, Some(SavingDiagnosis(WITHHELD, 0, false))))
      else if 0 <= verdict.confidence <= 100
      then Some(Effect(d, {}, Some(SavingDiagnosis(verdict.hypothesis, verdict.confidence, true))))
      else None
    case (SaveDiagnosis(repeat), SavingDiagnosis(hypothesis, confidence, accepted)) =>
      var saved := SaveRootCause(d, hypothesis, confidence, if accepted then Investigating else NeedsHumanReview);
      Some(Effect(saved, {}, if repeat then Some(pc) else if accepted then Some(AnnouncingDiagnosis) else None))
    case (AnnounceDiagnosis, AnnouncingDiagnosis) => Some(Effect(d, {StageDone(RootCauseStage)}, None))
    case (DropDiagnosis, _) => Some(Effect(d, {}, None))
    case _ => None
  }

  // ---------------------------------------------------------------- Orchestrator, Risk and Recommendation Agents

  datatype StageEvent =
    | RiskRead(severity: Risk.Severity)
    | RiskSave
    | RiskAnnounce
    | PlanRead
    | PlanAnswer(actions: seq<RecommendedAction>)
    | PlanSave(repeat: bool)
    | PlanAnnounce
    | GateRead
    | GateSave
    | DropStage

  function FirstStep(stage: Stage): StagePc {
    match stage
    case RootCauseStage => RiskReading
    case RiskStage => PlanReading
    case RecommendationStage => GateReading
  }

  function Orchestrate(env: Env, d: Slice, pc: StagePc, e: StageEvent): Option<Effect<StagePc>> {
    match (e, pc)
    case (RiskRead(severity), RiskReading) =>
      Some(Effect(d, {}, Some(RiskSaving(severity, Risk.Level(env.hitl, severity, d.record.confidence)))))
    case (RiskSave, RiskSaving(severity, level)) =>
      Some(Effect(SaveRiskAssessment(d, severity, level, level), {}, Some(RiskAnnouncing)))
    case (RiskAnnounce, RiskAnnouncing) => Some(Effect(d, {StageDone(RiskStage)}, None))
    case (PlanRead, PlanReading) =>
      Some(Effect(d, {}, if d.record.severity == None then None else Some(Planning(OrTwo(d.record.hitlLevel)))))
    case (PlanAnswer(actions), Planning(level)) => Some(Effect(d, {}, Some(PlanSaving(level, actions))))
    case (PlanSave(repeat), PlanSaving(level, actions)) =>
      Some(Effect(SaveRecommendation(d, actions, Landing(level)), {}, Some(if repeat then pc else PlanAnnouncing(true))))
    case (PlanAnnounce, PlanAnnouncing(byAgent)) =>
      // The Recommendation Agent announces the stage, then the Orchestrator announces it again.
      Some(Effect(d, {StageDone(RecommendationStage)}, if byAgent then Some(PlanAnnouncing(false)) else None))
    case (GateRead, GateReading) =>
      var expected := Landing(OrTwo(d.record.requiredLevel));
      Some(Effect(d, {}, if d.record.status == expected then None else Some(GateSaving(expected))))
    case (GateSave, GateSaving(expected)) =>
      Some(Effect(TransitionIncident(d, expected, "orchestrator"), {}, None))
    case (DropStage, _) => Some(Effect(d, {}, None))
    case _ => None
  }

  // ---------------------------------------------------------------- Action Agent

  /** One HTTP attempt: the CMMS may accept the order and the reply still be lost. */
  datatype Reply = Ok(reference: string) | ClientError | Unavailable(accepted: bool)

  datatype ActionEvent =
    | ReadView
    | CheckExecuted
    | SaveResult
    | OpenAttempt
    | Attempt(reply: Reply)
    | RecordOutcome
    | DropAction

  datatype ActionEffect = ActionEffect(db: Slice, log: Log, rest: Option<ActionPc>)

  function AddAttempt(d: Slice, log: Log, p: nat, operation: CmmsOperation, outcome: Outcome, reference: string,
                      rest: ActionPc): ActionEffect {
    ActionEffect(RecordActionExecution(d, operation, outcome, reference),
                 log.(attemptPass := log.attemptPass + [p]), Some(rest))
  }

  /** The pass holds the answer to an accepted order, which was the latest. */
  predicate Holding(pc: ActionPc) { pc.Recording? && pc.result.Done? && |pc.outs| < |pc.ops| }

  /** A dropped pass that holds an answer takes it along. */
  function LostWith(log: Log, pc: ActionPc): seq<nat> {
    if Holding(pc) && log.cmms != [] then [|log.cmms| - 1] else []
  }

  predicate AllDone(outs: seq<OpResult>) {
    forall k :: 0 <= k < |outs| ==> outs[k].Done?
  }

  function Act(env: Env, d: Slice, log: Log, p: nat, pc: ActionPc, e: ActionEvent): Option<ActionEffect> {
    match (e, pc)
    case (ReadView, ViewReading) =>
      Some(ActionEffect(d, log,
        if d.record.status != Approved then None
        else Some(Guarding(if d.record.actions.Some? then d.record.actions.value else []))))
    case (CheckExecuted, Guarding(actions)) =>
      var ops := Mapped(actions).operations;
      Some(ActionEffect(d, log, Some(
        if Executed(d) then Reconciling else if ops == [] then NothingToExecute else Opening(ops, [], |d.attempts|))))
    case (SaveResult, Reconciling) => Some(ActionEffect(SaveActionResult(d, ActionTaken, false), log, None))
    case (SaveResult, NothingToExecute) => Some(ActionEffect(SaveActionResult(d, ActionTaken, false), log, None))
    case (SaveResult, Opening(ops, outs, start)) =>
      if |outs| < |ops| then None
      else
        var landed := if AllDone(outs) then ActionTaken else ActionFailed;
        Some(ActionEffect(SaveActionResult(d, landed, true),
                          log.(ended := log.ended + [EndedPass(p, ops, outs, start, |d.attempts|, landed)]), None))
    case (OpenAttempt, Opening(ops, outs, start)) =>
      if |outs| >= |ops| then None
      else Some(AddAttempt(d, log, p, ops[|outs|], Pending, "", Calling(ops, outs, start, 1)))
    case (Attempt(reply), Calling(ops, outs, start, attempt)) =>
      if |outs| >= |ops| then None
      else Some(Answered(env, d, log, p, ops, outs, start, attempt, reply))
    case (RecordOutcome, Recording(ops, outs, start, result)) =>
      if |outs| >= |ops| then None
      else
        var rest := Opening(ops, outs + [result], start);
        Some(if result.Done? then AddAttempt(d, log, p, ops[|outs|], Succeeded, result.reference, rest)
             else AddAttempt(d, log, p, ops[|outs|], Failed, "", rest))
    case (DropAction, _) => Some(ActionEffect(d, log.(lost := log.lost + LostWith(log, pc)), None))
    case _ => None
  }

  function Accept(d: Slice, log: Log, p: nat, slot: nat, operation: CmmsOperation): Log {
    log.(cmms := log.cmms + [CmmsWrite(p, slot, operation, |d.approvals|)])
  }

  /** The client retries lost and server-side failures up to its bound; a 4xx is final at once. */
  function Answered(env: Env, d: Slice, log: Log, p: nat, ops: seq<CmmsOperation>, outs: seq<OpResult>, start: nat,
                    attempt: nat, reply: Reply): ActionEffect
    requires |outs| < |ops|
  {
    match reply
    case Ok(reference) =>
      ActionEffect(d, Accept(d, log, p, |outs|, ops[|outs|]), Some(Recording(ops, outs, start, Done(reference))))
    case ClientError =>
      ActionEffect(d, log, Some(Recording(ops, outs, start, Refused)))
    case Unavailable(accepted) =>
      ActionEffect(d,
        if accepted then Accept(d, log, p, |outs|, ops[|outs|]).(lost := log.lost + [|log.cmms|]) else log,
        Some(if attempt < MaxAttempts(env) then Calling(ops, outs, start, attempt + 1)
             else Recording(ops, outs, start, Refused)))
  }

  // ---------------------------------------------------------------- API calls

  datatype Request =
    | Decide(principal: Principal, decision: Decision, justification: string)
    | Resolve(principal: Principal)

  /** The guards of a decision: site, status, role level, and a reason for rejecting at level 3. */
  predicate MayDecide(env: Env, r: Record, principal: Principal, decision: Decision, justification: string) {
    && SameSite(r.site, principal.site)
    && r.status == AwaitingApproval
    && LevelFor(env, principal.role) >= DecisionLevel(r)
    && (decision == Reject && DecisionLevel(r) >= 3 ==> Justified(justification))
  }

  predicate MayResolve(env: Env, r: Record, principal: Principal) {
    && principal.role in env.resolveRoles
    && SameSite(r.site, principal.site)
    && r.status != Resolved
    && Resolved in ValidTransitions(r.status)
  }

  /** The read and the checks of a call; None when it is refused. */
  function Admit(env: Env, d: Slice, request: Request): Option<CallPc> {
    match request
    case Decide(principal, decision, justification) =>
      if MayDecide(env, d.record, principal, decision, justification)
      then Some(Deciding(principal, decision, DecisionLevel(d.record), justification, |d.history|)) else None
    case Resolve(principal) =>
      if MayResolve(env, d.record, principal) then Some(Resolving(principal.username)) else None
  }

  datatype CallEvent = SaveCall | AnnounceCall | DropCall

  datatype CallEffect = CallEffect(db: Slice, log: Log, publish: set<Message>, rest: Option<CallPc>)

  function Serve(d: Slice, log: Log, pc: CallPc, e: CallEvent): Option<CallEffect> {
    match (e, pc)
    case (SaveCall, Deciding(principal, decision, level, justification, observed)) =>
      Some(CallEffect(RecordApproval(d, decision, principal.username, level, justification),
                      log.(decided := log.decided + [Decider(principal, observed, |d.history|)]),
                      {}, if decision == Approve then Some(AnnouncingApproval) else None))
    case (SaveCall, Resolving(username)) => Some(CallEffect(ResolveManually(d, username), log, {}, None))
    case (AnnounceCall, AnnouncingApproval) => Some(CallEffect(d, log, {IncidentApproved}, None))
    case (DropCall, _) => Some(CallEffect(d, log, {}, None))
    case _ => None
  }

  // ---------------------------------------------------------------- resolution poller

  datatype PollEvent = PollView | PollCount | PollClose | PollDrop

  /** A succeeded work order with a reference, which the poller can ask the CMMS about. */
  predicate IsWorkOrder(row: AttemptRow) {
    row.operation.kind == WorkOrder && row.outcome == Succeeded && row.reference != ""
  }

  predicate HasWorkOrder(rows: seq<AttemptRow>) {
    exists i :: 0 <= i < |rows| && IsWorkOrder(rows[i])
  }

  datatype PollEffect = PollEffect(db: Slice, poll: PollPc)

  function Poll(d: Slice, poll: PollPc, e: PollEvent): Option<PollEffect> {
    match e
    case PollView =>
      if poll != PollIdle || d.record.status != ActionTaken || !HasWorkOrder(d.attempts) then None
      else Some(PollEffect(d, Viewed(if d.record.hypothesis.Some? && d.record.hypothesis.value != ""
                                     then d.record.hypothesis.value else "unrecorded")))
    case PollCount =>
      if !poll.Viewed? then None
      else Some(PollEffect(d, if CountAudit(d.audit, LoopClosed) > 0 then PollIdle else Counted(poll.rootCause)))
    case PollClose =>
      if !poll.Counted? then None else Some(PollEffect(CloseLoop(d, poll.rootCause), PollIdle))
    case PollDrop => Some(PollEffect(d, PollIdle))
  }

  // ---------------------------------------------------------------- one event

  datatype Event =
    | Sensing(sense: SenseEvent)
    | DiagnosisStart
    | DiagnosisStep(pass: nat, diagnosis: DiagnosisEvent)
    | StageStart(done: Stage)
    | StageStep(pass: nat, stage: StageEvent)
    | ActionStart
    | ActionStep(pass: nat, action: ActionEvent)
    | CallStart(request: Request)
    | CallStep(pass: nat, call: CallEvent)
    | Polling(poll: PollEvent)
    | Crash

  /** Everything in memory is gone; the database, the CMMS and published messages remain. */
  function Crashed(c: Case): Case {
    var lost := if c.log.cmms != [] && exists p :: p in c.action.passes && Holding(c.action.passes[p])
                then [|c.log.cmms| - 1] else [];
    c.(diagnosis := Idle(), stage := Idle(), action := Idle(), calls := map[], poll := PollIdle,
       log := c.log.(lost := c.log.lost + lost))
  }

  /** What the event leads to, or None when it cannot happen now. */
  function Next(env: Env, c: Case, e: Event): Option<Case> {
    match e
    case Sensing(s) =>
      if !CanSense(c, s) then None
      else Some(c.(bus := c.bus + {if s == Redetected then AnomalyDetected else EvidenceCollected}))
    case DiagnosisStart =>
      if c.bus * {AnomalyDetected, EvidenceCollected} == {} || c.diagnosis.busy then None
      else Some(c.(diagnosis := Begin(c.diagnosis, c.next, ReadingState), next := c.next + 1))
    case DiagnosisStep(p, d) =>
      if p !in c.diagnosis.passes then None
      else (match Diagnose(c.db, c.diagnosis.passes[p], d)
        case None => None
        case Some(x) => Some(c.(db := x.db, bus := c.bus + x.publish, diagnosis := Continue(c.diagnosis, p, x.rest))))
    case StageStart(done) =>
      if StageDone(done) !in c.bus || c.stage.busy then None
      else Some(c.(stage := Begin(c.stage, c.next, FirstStep(done)), next := c.next + 1))
    case StageStep(p, s) =>
      if p !in c.stage.passes then None
      else (match Orchestrate(env, c.db, c.stage.passes[p], s)
        case None => None
        case Some(x) => Some(c.(db := x.db, bus := c.bus + x.publish, stage := Continue(c.stage, p, x.rest))))
    case ActionStart =>
      if IncidentApproved !in c.bus || c.action.busy then None
      else Some(c.(action := Begin(c.action, c.next, ViewReading), next := c.next + 1))
    case ActionStep(p, a) =>
      if p !in c.action.passes then None
      else (match Act(env, c.db, c.log, p, c.action.passes[p], a)
        case None => None
        case Some(x) => Some(c.(db := x.db, log := x.log, action := Continue(c.action, p, x.rest))))
    case CallStart(request) =>
      (match Admit(env, c.db, request)
        case None => None
        case Some(pc) => Some(c.(calls := c.calls[c.next := pc], next := c.next + 1)))
    case CallStep(k, e) =>
      if k !in c.calls then None
      else (match Serve(c.db, c.log, c.calls[k], e)
        case None => None
        case Some(x) => Some(c.(db := x.db, log := x.log, bus := c.bus + x.publish,
                                calls := if x.rest.Some? then c.calls[k := x.rest.value] else c.calls - {k})))
    case Polling(q) =>
      (match Poll(c.db, c.poll, q)
        case None => None
        case Some(x) => Some(c.(db := x.db, poll := x.poll)))
    case Crash => Some(Crashed(c))
  }
}
