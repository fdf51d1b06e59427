/** The client of the maintenance system (CMMS) and its bounded retries. */
module Cmms {
  import opened Mapping
  import opened Protocol

  datatype Exchanged = Exchanged(result: OpResult, attempts: nat)

  /** The answer to one request and the attempts it took, when attempt number `from` is the first. */
  function Exchange(replies: nat -> Reply, from: nat, left: nat): (x: Exchanged)
    requires left >= 1
    ensures 1 <= x.attempts <= left
    decreases left
  {
    match replies(from)
    case Ok(reference) => Exchanged(Done(reference), 1)
    case ClientError => Exchanged(Refused, 1)
    case Unavailable(_) =>
      if left == 1 then Exchanged(Refused, 1)
      else Again(Exchange(replies, from + 1, left - 1))
  }

  function Again(x: Exchanged): Exchanged { x.(attempts := x.attempts + 1) }

  predicate Accepts(reply: Reply) { reply.Ok? || (reply.Unavailable? && reply.accepted) }

  /** How many of the attempts the CMMS took as an order, whether or not it managed to say so. */
  function Orders(replies: nat -> Reply, from: nat, upto: nat): nat
    requires from <= upto
  {
    if from == upto then 0 else Orders(replies, from, upto - 1) + if Accepts(replies(upto - 1)) then 1 else 0
  }

  /** The attempts at which the CMMS takes an order. */
  ghost function Taken(replies: nat -> Reply, from: nat, upto: nat): set<nat> {
    set k: nat | from <= k < upto && (replies(k).Ok? || replies(k) == Unavailable(true))
  }

  lemma {:induction false} OrdersCount(replies: nat -> Reply, from: nat, upto: nat)
    requires from <= upto
    ensures Orders(replies, from, upto) == |Taken(replies, from, upto)|
    decreases upto - from
  {
    if from < upto {
      OrdersCount(replies, from, upto - 1);
      var before := Taken(replies, from, upto - 1);
      assert Taken(replies, from, upto) == if Accepts(replies(upto - 1)) then before + {upto - 1} else before;
    }
  }

  /** A request succeeds if and only if the first reply that is not a failure of the service comes within the
      allowed attempts and accepts; nothing is sent after it. */
  lemma {:induction false} RequestSucceedsIff(replies: nat -> Reply, from: nat, left: nat)
    requires left >= 1
    ensures
      var Exchanged(result, attempts) := Exchange(replies, from, left);
      var last := from + attempts - 1;
      && (forall k: nat :: from <= k < last ==> replies(k).Unavailable?)
      && (replies(last).Unavailable? ==> attempts == left)
      && result == match replies(last) { case Ok(reference) => Done(reference) case _ => Refused }
    decreases left
  {
    if replies(from).Unavailable? && left > 1 { RequestSucceedsIff(replies, from + 1, left - 1); }
  }

  /** The request comes down to its `attempt`-th attempt. */
  ghost predicate Pending(replies: nat -> Reply, from: nat, left: nat, attempt: nat) {
    && 1 <= attempt <= left
    && var rest := Exchange(replies, from + attempt - 1, left - attempt + 1);
       Exchange(replies, from, left) == Exchanged(rest.result, rest.attempts + attempt - 1)
  }

  lemma PendingNext(replies: nat -> Reply, from: nat, left: nat, attempt: nat)
    requires Pending(replies, from, left, attempt)
    ensures
      match replies(from + attempt - 1)
      case Ok(reference) => Exchange(replies, from, left) == Exchanged(Done(reference), attempt)
      case ClientError => Exchange(replies, from, left) == Exchanged(Refused, attempt)
      case Unavailable(_) =>
        if attempt == left then Exchange(replies, from, left) == Exchanged(Refused, attempt)
        else Pending(replies, from, left, attempt + 1)
  {
  }

  lemma {:induction false} NoOrdersIff(replies: nat -> Reply, from: nat, upto: nat)
    requires from <= upto
    ensures Orders(replies, from, upto) == 0 <==> forall k: nat :: from <= k < upto ==> !Accepts(replies(k))
    decreases upto - from
  {
    if from < upto { NoOrdersIff(replies, from, upto - 1); }
  }

  /** A successful request places one order exactly when no accepted attempt went unanswered before it. */
  lemma OneOrderIff(replies: nat -> Reply, from: nat, left: nat)
    requires left >= 1 && Exchange(replies, from, left).result.Done?
    ensures
      var upto := from + Exchange(replies, from, left).attempts;
      var answered := forall k: nat :: from <= k < upto - 1 ==> !Accepts(replies(k));
      Orders(replies, from, upto) >= 1 && (Orders(replies, from, upto) == 1 <==> answered)
  {
    RequestSucceedsIff(replies, from, left);
    NoOrdersIff(replies, from, from + Exchange(replies, from, left).attempts - 1);
  }

  function Repeat(operation: CmmsOperation, n: nat): (r: seq<CmmsOperation>)
    ensures |r| == n && forall k :: 0 <= k < n ==> r[k] == operation
  {
    seq(n, _ => operation)
  }

  /** Several operations in turn: their results, the attempts sent by then, and the orders the CMMS took. */
  datatype Batch = Batch(outs: seq<OpResult>, sent: nat, orders: seq<CmmsOperation>)

  function Requests(replies: nat -> Reply, from: nat, bound: nat, ops: seq<CmmsOperation>): (b: Batch)
    requires bound >= 1
    ensures |b.outs| == |ops| && b.sent >= from
  {
    if ops == [] then Batch([], from, [])
    else OneMore(replies, bound, Requests(replies, from, bound, ops[..|ops| - 1]), ops[|ops| - 1])
  }

  function OneMore(replies: nat -> Reply, bound: nat, before: Batch, operation: CmmsOperation): Batch
    requires bound >= 1
  {
    var x := Exchange(replies, before.sent, bound);
    var sent := before.sent + x.attempts;
    Batch(before.outs + [x.result], sent, before.orders + Repeat(operation, Orders(replies, before.sent, sent)))
  }

  function Successes(outs: seq<OpResult>): nat {
    if outs == [] then 0 else Successes(outs[..|outs| - 1]) + if outs[|outs| - 1].Done? then 1 else 0
  }

  /** The CMMS took at least one order for each operation that succeeded. */
  lemma {:induction false} SuccessesWereOrdered(replies: nat -> Reply, from: nat, bound: nat, ops: seq<CmmsOperation>)
    requires bound >= 1
    ensures |Requests(replies, from, bound, ops).orders| >= Successes(Requests(replies, from, bound, ops).outs)
  {
    if ops != [] {
      var before := Requests(replies, from, bound, ops[..|ops| - 1]);
      SuccessesWereOrdered(replies, from, bound, ops[..|ops| - 1]);
      var x := Exchange(replies, before.sent, bound);
      assert (before.outs + [x.result])[..|before.outs|] == before.outs;
      if x.result.Done? { OneOrderIff(replies, before.sent, bound); }
    }
  }

  class CmmsClient {
    const retryAttempts: nat
    /** What each attempt will be answered, in the order of sending. */
    const replies: nat -> Reply
    var sent: nat
    ghost var orders: seq<CmmsOperation>

    constructor (retryAttempts: nat, replies: nat -> Reply)
      ensures sent == 0 && orders == [] && this.replies == replies
      ensures this.retryAttempts == if retryAttempts >= 1 then retryAttempts else 1
    {
      this.retryAttempts := if retryAttempts >= 1 then retryAttempts else 1;
      this.replies := replies;
      sent, orders := 0, [];
    }

    ghost predicate Valid() { retryAttempts >= 1 }

    /** Retries while the service is unavailable and attempts are left; a client error is final at once. */
    method Request(operation: CmmsOperation) returns (result: OpResult)
      requires Valid()
      modifies this
      ensures sent > old(sent) && Exchange(replies, old(sent), retryAttempts) == Exchanged(result, sent - old(sent))
      ensures orders == old(orders) + Repeat(operation, Orders(replies, old(sent), sent))
    {
      var attempt := 1;
      ghost var first := sent;
      while true
        invariant 1 <= attempt <= retryAttempts && sent == first + attempt - 1
        invariant Pending(replies, first, retryAttempts, attempt)
        invariant orders == old(orders) + Repeat(operation, Orders(replies, first, sent))
        decreases retryAttempts - attempt
      {
        var response := replies(sent);
        PendingNext(replies, first, retryAttempts, attempt);
        sent := sent + 1;
        if Accepts(response) { orders := orders + [operation]; }
        if response.Ok? { return Done(response.reference); }
        if response.ClientError? { return Refused; }
        if attempt == retryAttempts { return Refused; }
        attempt := attempt + 1;
      }
    }
  }
}

/** The handlers of the agents and of the decision endpoint, each run without interruption on the store. */
module Agents {
  import opened Wrappers
  import opened Mapping
  import opened Incidents
  import opened Store
  import opened Protocol
  import opened Cmms
  import opened Entitlement
  import opened Text
  import Invariant

  // ---------------------------------------------------------------- the decision endpoint

  datatype Refusal = NotFound | OtherSite | WrongStatus | LevelTooLow | NoJustification | WrongRole | AlreadyResolved

  /** The first check that refuses the decision. */
  function RefusalOf(env: Env, r: Record, principal: Principal, decision: Decision, justification: string): Option<Refusal> {
    if !SameSite(r.site, principal.site) then Some(OtherSite)
    else if r.status != AwaitingApproval then Some(WrongStatus)
    else if LevelFor(env, principal.role) < DecisionLevel(r) then Some(LevelTooLow)
    else if decision == Reject && DecisionLevel(r) >= 3 && !Justified(justification) then Some(NoJustification)
    else None
  }

  /** The checks come in order, and refuse exactly the callers who do not cover the level of the decision. */
  lemma RefusedIff(env: Env, r: Record, who: Principal, decision: Decision, reason: string, level: int)
    requires DecidedAt(r, level)
    ensures
      var refusal := RefusalOf(env, r, who, decision, reason);
      var site, waits := SameIgnoringCase(r.site, who.site), r.status == AwaitingApproval;
      var covered := (if who.role in env.approvalLevels then env.approvalLevels[who.role] else 0) >= level;
      var reasoned := decision == Approve || level < 3 || exists i :: 0 <= i < |reason| && !IsSpace(reason[i]);
      && (refusal == None <==> site && waits && covered && reasoned)
      && (refusal == Some(OtherSite) <==> !site)
      && (refusal == Some(WrongStatus) <==> site && !waits)
      && (refusal == Some(LevelTooLow) <==> site && waits && !covered)
      && (refusal == Some(NoJustification) <==> site && waits && covered && !reasoned)
  {
    DecisionLevelIs(r);
    LowerIff(r.site, who.site);
    BlankIff(reason);
  }

  /** Either nothing changes, or the caller was entitled and exactly the decision is recorded; an approval, and
      nothing else, is announced. */
  method RecordDecision(env: Env, store: IncidentStore, id: Id, principal: Principal, decision: Decision, justification: string)
      returns (r: Result<int, Refusal>, announced: bool)
    modifies store
    ensures id !in old(store.incidents) ==> r == Failure(NotFound)
    ensures id in old(store.incidents) && r.Failure?
      ==> RefusalOf(env, old(store.incidents)[id], principal, decision, justification) == Some(r.error)
    ensures r.Failure? ==> store.Untouched() && !announced
    ensures r.Success? <==>
      id in old(store.incidents) && MayDecide(env, old(store.incidents)[id], principal, decision, justification)
    ensures r.Success? ==> announced == (decision == Approve)
    ensures r.Success? ==>
      && old(store.incidents)[id].status == AwaitingApproval && DecidedAt(old(store.incidents)[id], r.value)
      && Covers(env, old(store.incidents)[id], principal, r.value, decision, justification)
    ensures r.Success? ==>
      store.Committed(id, RecordApproval(old(store.SliceOf(id)), decision, principal.username, r.value, justification))
  {
    if id !in store.incidents { return Failure(NotFound), false; }
    var view := store.incidents[id];
    if !SameSite(view.site, principal.site) { return Failure(OtherSite), false; }
    if view.status != AwaitingApproval { return Failure(WrongStatus), false; }
    var level := DecisionLevel(view);
    if LevelFor(env, principal.role) < level { return Failure(LevelTooLow), false; }
    if decision == Reject && level >= 3 && !Justified(justification) { return Failure(NoJustification), false; }
    DecisionLevelIs(view);
    MayDecideIff(env, view, principal, decision, justification, level);
    var recorded := store.RecordApproval(id, decision, principal.username, level, justification);
    r, announced := Success(level), decision == Approve;
  }

  method ResolveIncident(env: Env, store: IncidentStore, id: Id, principal: Principal) returns (r: Result<(), Refusal>)
    modifies store
    ensures r.Failure? ==> store.Untouched()
    ensures r.Success? <==> id in old(store.incidents) && MayResolve(env, old(store.incidents)[id], principal)
    ensures r.Success? <==>
      && id in old(store.incidents) && old(store.incidents)[id].status != Resolved
      && principal.role in env.resolveRoles && SameIgnoringCase(old(store.incidents)[id].site, principal.site)
    ensures r.Success? ==> store.Committed(id, ResolveManually(old(store.SliceOf(id)), principal.username))
  {
    if principal.role !in env.resolveRoles { return Failure(WrongRole); }
    if id !in store.incidents { return Failure(NotFound); }
    var incident := store.incidents[id];
    MayResolveIff(env, incident, principal);
    if !SameSite(incident.site, principal.site) { return Failure(OtherSite); }
    if incident.status == Resolved { return Failure(AlreadyResolved); }
    if Resolved !in ValidTransitions(incident.status) { return Failure(WrongStatus); }
    var resolved := store.ResolveIncidentManually(id, principal.username);
    r := Success(());
  }

  // ---------------------------------------------------------------- Orchestrator

  /** The next stage's message; that of the recommendation is sent by its agent and again by the Orchestrator. */
  function FollowUps(stage: Stage, before: Record): seq<Message> {
    match stage
    case RootCauseStage => [StageDone(RiskStage)]
    case RiskStage =>
      if before.severity.Some? then [StageDone(RecommendationStage), StageDone(RecommendationStage)] else []
    case RecommendationStage => []
  }

  /** What the pass of each stage leaves: an assessment, a recommendation if there is one, or the gate's status. */
  ghost function StageResult(cfg: Risk.Config, d: Slice, stage: Stage, sensors: seq<Risk.SensorScore>,
                             actions: seq<RecommendedAction>): Slice
    requires Risk.Usable(cfg)
  {
    match stage
    case RootCauseStage =>
      var severity := Risk.SeverityOf(cfg, sensors);
      var level := Risk.Level(cfg, severity, d.record.confidence);
      SaveRiskAssessment(d, severity, level, level)
    case RiskStage =>
      if d.record.severity == None then d else SaveRecommendation(d, actions, Landing(OrTwo(d.record.hitlLevel)))
    case RecommendationStage =>
      var expected := Landing(OrTwo(d.record.requiredLevel));
      if d.record.status == expected then d else TransitionIncident(d, expected, "orchestrator")
  }

  class OrchestratorAgent {
    const store: IncidentStore
    var inFlight: set<Id>

    constructor (store: IncidentStore)
      ensures this.store == store && inFlight == {}
    {
      this.store, inFlight := store, {};
    }

    /** After the gate the status is the one the required level routes to, and nothing else has changed. */
    method ApplyHitlGate(id: Id) returns (applied: bool)
      modifies store
      ensures applied == (id in old(store.incidents)
        && old(store.incidents)[id].status != Landing(OrTwo(old(store.incidents)[id].requiredLevel)))
      ensures !applied ==> store.Untouched()
      ensures applied ==> store.Committed(id, TransitionIncident(old(store.SliceOf(id)),
        Landing(OrTwo(old(store.incidents)[id].requiredLevel)), "orchestrator"))
      ensures id in store.incidents ==>
        var level := store.incidents[id].requiredLevel;
        store.incidents[id].status
          == if level.Some? && level.value != 0 && level.value <= 1 then AutoInformed else AwaitingApproval
    {
      applied := false;
      if id in store.incidents {
        var decision := store.incidents[id];
        var level := OrTwo(decision.requiredLevel);
        var expected := if level <= 1 then AutoInformed else AwaitingApproval;
        if decision.status != expected {
          var moved := store.TransitionIncident(id, expected, "orchestrator");
          applied := true;
        }
      }
    }

    /** The Risk Agent's stage: severity from the flagged sensors, the level from it and the confidence. */
    method TriggerRisk(id: Id, sensors: seq<Risk.SensorScore>, cfg: Risk.Config) returns (done: bool)
      requires Risk.Usable(cfg)
      modifies store
      ensures done == (id in old(store.incidents))
      ensures !done ==> store.Untouched()
      ensures done ==>
        var severity := Risk.SeverityOf(cfg, sensors);
        var level := Risk.Level(cfg, severity, old(store.incidents)[id].confidence);
        store.Committed(id, SaveRiskAssessment(old(store.SliceOf(id)), severity, level, level))
      ensures done ==>
        var r := store.incidents[id];
        && r.severity == Some(Risk.SeverityOf(cfg, sensors)) && r.hitlLevel.Some? && r.requiredLevel == r.hitlLevel
        && Risk.IsGreatestDemanded(cfg, r.severity.value, r.confidence, r.hitlLevel.value)
    {
      if id !in store.incidents { return false; }
      var severity := Risk.SeverityFrom(sensors, cfg);
      var level := Risk.HitlLevelFor(severity, store.incidents[id].confidence, cfg);
      Risk.LevelIsGreatestDemanded(cfg, severity, store.incidents[id].confidence);
      done := store.SaveRiskAssessment(id, severity, level, level);
    }

    /** The Recommendation Agent's stage: refused without a risk assessment, else routed by the stored level. */
    method TriggerRecommendation(id: Id, actions: seq<RecommendedAction>) returns (done: bool)
      modifies store
      ensures done == (id in old(store.incidents) && old(store.incidents)[id].severity.Some?)
      ensures !done ==> store.Untouched()
      ensures done ==> store.Committed(id, SaveRecommendation(old(store.SliceOf(id)), actions,
        Landing(OrTwo(old(store.incidents)[id].hitlLevel))))
      ensures done ==>
        var level := store.incidents[id].hitlLevel;
        && store.incidents[id].actions == Some(actions)
        && store.incidents[id].status
             == if level.Some? && level.value != 0 && level.value <= 1 then AutoInformed else AwaitingApproval
    {
      if id !in store.incidents || store.incidents[id].severity == None { return false; }
      var hitl := OrTwo(store.incidents[id].hitlLevel);
      done := store.SaveRecommendation(id, actions, if hitl <= 1 then AutoInformed else AwaitingApproval);
    }

    /** A second event for an incident whose pass is still running is ignored; the guard is always released. */
    method OnStageCompleted(id: Id, stage: Stage, sensors: seq<Risk.SensorScore>, cfg: Risk.Config,
                            actions: seq<RecommendedAction>) returns (published: seq<Message>)
      requires Risk.Usable(cfg)
      modifies this, store
      ensures inFlight == old(inFlight)
      ensures id in old(inFlight) || id !in old(store.incidents) ==> store.Untouched() && published == []
      ensures id !in old(inFlight) && id in old(store.incidents) ==> published == FollowUps(stage, old(store.incidents)[id])
      ensures id !in old(inFlight) && id in old(store.incidents) ==>
        store.Committed(id, StageResult(cfg, old(store.SliceOf(id)), stage, sensors, actions))
    {
      published := [];
      if id in inFlight { return; }
      inFlight := inFlight + {id};
      match stage {
        case RootCauseStage =>
          var done := TriggerRisk(id, sensors, cfg);
          if done { published := [StageDone(RiskStage)]; }
        case RiskStage =>
          var done := TriggerRecommendation(id, actions);
          if done { published := [StageDone(RecommendationStage), StageDone(RecommendationStage)]; }
        case RecommendationStage =>
          var applied := ApplyHitlGate(id);
      }
      inFlight := inFlight - {id};
      assert inFlight == old(inFlight);
    }
  }

  // ---------------------------------------------------------------- Action Agent

  /** The slice after a pass that ran its operations to the end with these outcomes. */
  function Executing(d: Slice, ops: seq<CmmsOperation>, outs: seq<OpResult>): Slice
    requires |outs| <= |ops|
  {
    d.(attempts := d.attempts + Invariant.PassRows(ops, outs))
  }

  function Landed(d: Slice, ops: seq<CmmsOperation>, outs: seq<OpResult>): Slice
    requires |outs| <= |ops|
  {
    SaveActionResult(Executing(d, ops, outs), if AllDone(outs) then ActionTaken else ActionFailed, true)
  }

  lemma OneMoreOutcome(d: Slice, ops: seq<CmmsOperation>, outs: seq<OpResult>, result: OpResult)
    requires |outs| < |ops|
    ensures
      var op := ops[|outs|];
      var pending := RecordActionExecution(Executing(d, ops, outs), op, Pending, "");
      Executing(d, ops, outs + [result])
        == if result.Done? then RecordActionExecution(pending, op, Succeeded, result.reference)
           else RecordActionExecution(pending, op, Failed, "")
  {
    var longer := outs + [result];
    assert longer[..|outs|] == outs;
  }

  lemma NothingYet(d: Slice, ops: seq<CmmsOperation>)
    ensures Executing(d, ops, []) == d
  {
    assert d.attempts + [] == d.attempts;
  }

  lemma AppendOutcome(outs: seq<OpResult>, result: OpResult)
    ensures AllDone(outs + [result]) <==> AllDone(outs) && result.Done?
  {
    assert forall k :: 0 <= k < |outs| ==> (outs + [result])[k] == outs[k];
    assert (outs + [result])[|outs|] == result;
  }

  /** The operations that a pass for this incident still has to execute. */
  ghost function ToExecute(d: Slice): seq<CmmsOperation> {
    if Executed(d) then [] else Mapped(if d.record.actions.Some? then d.record.actions.value else []).operations
  }

  /** After a pass: reconciled or landed without operations, or every operation recorded and the result saved. */
  ghost function Handled(d: Slice, outs: seq<OpResult>): Slice
    requires |outs| == |ToExecute(d)|
  {
    if ToExecute(d) == [] then SaveActionResult(d, ActionTaken, false) else Landed(d, ToExecute(d), outs)
  }

  /** What the agent publishes at the end of a pass. */
  datatype Announcement = Nothing | ActionCompleted | ActionFailure

  ghost function Announced(d: Slice, outs: seq<OpResult>): Announcement {
    if Executed(d) then Nothing else if AllDone(outs) then ActionCompleted else ActionFailure
  }

  class ActionAgent {
    const store: IncidentStore
    const cmms: CmmsClient
    var inFlight: set<Id>

    constructor (store: IncidentStore, cmms: CmmsClient)
      ensures this.store == store && this.cmms == cmms && inFlight == {}
    {
      this.store, this.cmms, inFlight := store, cmms, {};
    }

    /** The pending row first, then the request, then its outcome. */
    method ExecuteOne(id: Id, ghost ops: seq<CmmsOperation>, ghost outs: seq<OpResult>, operation: CmmsOperation,
                      ghost start: Slice) returns (result: OpResult)
      requires id in store.incidents && cmms.Valid()
      requires |outs| < |ops| && operation == ops[|outs|] && store.SliceOf(id) == Executing(start, ops, outs)
      modifies store, cmms
      ensures store.Committed(id, Executing(start, ops, outs + [result]))
      ensures Rows(store.attempts, id) == old(Rows(store.attempts, id)) + [AttemptRow(operation, Pending, ""),
        if result.Done? then AttemptRow(operation, Succeeded, result.reference) else AttemptRow(operation, Failed, "")]
      ensures cmms.sent > old(cmms.sent)
      ensures Exchange(cmms.replies, old(cmms.sent), cmms.retryAttempts) == Exchanged(result, cmms.sent - old(cmms.sent))
      ensures cmms.orders == old(cmms.orders) + Repeat(operation, Orders(cmms.replies, old(cmms.sent), cmms.sent))
    {
      store.RecordActionExecution(id, operation, Pending, "");
      result := cmms.Request(operation);
      OneMoreOutcome(start, ops, outs, result);
      store.RecordActionExecution(id, operation, if result.Done? then Succeeded else Failed,
                                  if result.Done? then result.reference else "");
    }

    /** The client has served these operations since it had sent `sent` and the CMMS had taken `orders`. */
    ghost predicate HasServed(ops: seq<CmmsOperation>, sent: nat, orders: seq<CmmsOperation>, outs: seq<OpResult>)
      requires cmms.Valid()
      reads cmms
    {
      var b := Requests(cmms.replies, sent, cmms.retryAttempts, ops);
      outs == b.outs && cmms.sent == b.sent && cmms.orders == orders + b.orders
    }

    lemma ServesOneMore(ops: seq<CmmsOperation>, sent: nat, orders: seq<CmmsOperation>, outs: seq<OpResult>,
                        i: nat, before: Batch, taken: seq<CmmsOperation>)
      requires cmms.Valid() && i < |ops| && before == Requests(cmms.replies, sent, cmms.retryAttempts, ops[..i])
      requires outs == OneMore(cmms.replies, cmms.retryAttempts, before, ops[i]).outs
      requires cmms.sent == OneMore(cmms.replies, cmms.retryAttempts, before, ops[i]).sent
      requires taken == orders + before.orders
      requires cmms.orders == taken + Repeat(ops[i], Orders(cmms.replies, before.sent, cmms.sent))
      ensures HasServed(ops[..i + 1], sent, orders, outs)
    {
      assert ops[..i + 1][..i] == ops[..i];
    }

    /** Every operation in turn; the failed ones do not stop the others. */
    method ExecuteAll(id: Id, ops: seq<CmmsOperation>) returns (failed: bool, ghost outs: seq<OpResult>)
      requires id in store.incidents && cmms.Valid()
      modifies store, cmms
      ensures |outs| == |ops| && failed == !AllDone(outs)
      ensures HasServed(ops, old(cmms.sent), old(cmms.orders), outs)
      ensures store.Committed(id, Executing(old(store.SliceOf(id)), ops, outs))
    {
      failed, outs := false, [];
      ghost var start, sent, orders := store.SliceOf(id), cmms.sent, cmms.orders;
      NothingYet(start, ops);
      for i := 0 to |ops|
        invariant |outs| == i && failed == !AllDone(outs)
        invariant HasServed(ops[..i], sent, orders, outs)
        invariant store.Committed(id, Executing(start, ops, outs))
      {
        ghost var before, taken := Requests(cmms.replies, sent, cmms.retryAttempts, ops[..i]), cmms.orders;
        var result := ExecuteOne(id, ops, outs, ops[i], start);
        AppendOutcome(outs, result);
        if result == Refused { failed := true; }
        outs := outs + [result];
        ServesOneMore(ops, sent, orders, outs, i, before, taken);
      }
      assert ops[..|ops|] == ops;
    }

    /** Executes the operations and lands on the status that their outcomes call for. */
    method ExecuteAndSave(id: Id, ops: seq<CmmsOperation>) returns (event: Announcement, ghost outs: seq<OpResult>)
      requires id in store.incidents && cmms.Valid()
      modifies store, cmms
      ensures |outs| == |ops| && HasServed(ops, old(cmms.sent), old(cmms.orders), outs)
      ensures store.Committed(id, Landed(old(store.SliceOf(id)), ops, outs))
      ensures event == if AllDone(outs) then ActionCompleted else ActionFailure
    {
      var failed;
      failed, outs := ExecuteAll(id, ops);
      var saved := store.SaveActionResult(id, if failed then ActionFailed else ActionTaken, true);
      event := if failed then ActionFailure else ActionCompleted;
    }

    /** Reconciles what is executed already, records that there is nothing to execute, or executes. */
    method HandleApproved(id: Id) returns (event: Announcement, ghost outs: seq<OpResult>)
      requires id in store.incidents && cmms.Valid()
      modifies store, cmms
      ensures HasServed(ToExecute(old(store.SliceOf(id))), old(cmms.sent), old(cmms.orders), outs)
      ensures store.Committed(id, Handled(old(store.SliceOf(id)), outs))
      ensures event == Announced(old(store.SliceOf(id)), outs)
    {
      var succeeded := store.GetExecutedActionKinds(id);
      if succeeded != {} {
        var saved := store.SaveActionResult(id, ActionTaken, false);
        return Nothing, [];
      }
      var view := store.incidents[id];
      var mapping := MapRecommendationToCmms(if view.actions.Some? then view.actions.value else []);
      if mapping.operations == [] {
        var saved := store.SaveActionResult(id, ActionTaken, false);
        return ActionCompleted, [];
      }
      event, outs := ExecuteAndSave(id, mapping.operations);
    }

    /** What an approved incident's pass does to the store and sends to the CMMS, and that it does neither in any
        other case. */
    method Handle(id: Id) returns (event: Announcement, ghost outs: seq<OpResult>)
      requires cmms.Valid()
      modifies store, cmms
      ensures id !in old(store.incidents) || old(store.incidents)[id].status != Approved
        ==> event == Nothing && store.Untouched() && cmms.sent == old(cmms.sent) && cmms.orders == old(cmms.orders)
      ensures id in old(store.incidents) && old(store.incidents)[id].status == Approved
        ==> HasServed(ToExecute(old(store.SliceOf(id))), old(cmms.sent), old(cmms.orders), outs)
            && store.Committed(id, Handled(old(store.SliceOf(id)), outs))
            && event == Announced(old(store.SliceOf(id)), outs)
    {
      if id !in store.incidents || store.incidents[id].status != Approved { return Nothing, []; }
      event, outs := HandleApproved(id);
    }

    /** A duplicate delivery for an incident that is already executing is ignored; the guard is released. */
    method OnIncidentApproved(id: Id) returns (event: Announcement, ghost outs: seq<OpResult>)
      requires cmms.Valid()
      modifies this, store, cmms
      ensures inFlight == old(inFlight)
      ensures id in old(inFlight) || id !in old(store.incidents) || old(store.incidents)[id].status != Approved
        ==> event == Nothing && store.Untouched() && cmms.sent == old(cmms.sent) && cmms.orders == old(cmms.orders)
      ensures id !in old(inFlight) && id in old(store.incidents) && old(store.incidents)[id].status == Approved
        ==> HasServed(ToExecute(old(store.SliceOf(id))), old(cmms.sent), old(cmms.orders), outs)
            && store.Committed(id, Handled(old(store.SliceOf(id)), outs))
            && event == Announced(old(store.SliceOf(id)), outs)
    {
      event, outs := Nothing, [];
      if id in inFlight { return; }
      inFlight := inFlight + {id};
      event, outs := Handle(id);
      inFlight := inFlight - {id};
      assert inFlight == old(inFlight);
    }
  }
}

/** The uninterrupted handler is one of the runs of the protocol. */
module ActionRuns {
  import opened Wrappers
  import opened Mapping
  import opened Incidents
  import opened Protocol
  import opened Agents
  import opened Cmms

  /** Where a pass of the Action Agent gets by the given steps, with nothing in between; None if it cannot. */
  function Acts(env: Env, d: Slice, log: Log, p: nat, pc: ActionPc, steps: seq<ActionEvent>): Option<ActionEffect>
    decreases 2 * |steps|
  {
    if steps == [] then Some(ActionEffect(d, log, Some(pc)))
    else ActsAfter(env, p, Act(env, d, log, p, pc, steps[0]), steps[1..])
  }

  /** The same after a first step, which may have been impossible, or the last of its pass. */
  function ActsAfter(env: Env, p: nat, x: Option<ActionEffect>, rest: seq<ActionEvent>): Option<ActionEffect>
    decreases 2 * |rest| + 1
  {
    if x == None || (x.value.rest == None && rest != []) then None
    else if x.value.rest == None then x
    else Acts(env, x.value.db, x.value.log, p, x.value.rest.value, rest)
  }

  lemma ActsStep(env: Env, d: Slice, log: Log, p: nat, pc: ActionPc, e: ActionEvent, rest: seq<ActionEvent>)
    requires Act(env, d, log, p, pc, e).Some? && Act(env, d, log, p, pc, e).value.rest.Some?
    ensures
      var x := Act(env, d, log, p, pc, e).value;
      Acts(env, d, log, p, pc, [e] + rest) == Acts(env, x.db, x.log, p, x.rest.value, rest)
  {
    assert ([e] + rest)[1..] == rest;
  }

  lemma ActsEnd(env: Env, d: Slice, log: Log, p: nat, pc: ActionPc, e: ActionEvent)
    requires Act(env, d, log, p, pc, e).Some? && Act(env, d, log, p, pc, e).value.rest == None
    ensures Acts(env, d, log, p, pc, [e]) == Act(env, d, log, p, pc, e)
  {
  }

  // ---------------------------------------------------------------- one operation, with its retries

  /** The attempts of one request, answered in turn. */
  function Replies(replies: nat -> Reply, from: nat, count: nat): (steps: seq<ActionEvent>)
    ensures |steps| == count && forall k: nat :: k < count ==> steps[k] == Attempt(replies(from + k))
  {
    seq(count, k requires 0 <= k < count => Attempt(replies(from + k)))
  }

  /** What one attempt adds to the log. */
  function AttemptLog(d: Slice, log: Log, p: nat, slot: nat, operation: CmmsOperation, reply: Reply): Log {
    match reply
    case Ok(_) => Accept(d, log, p, slot, operation)
    case ClientError => log
    case Unavailable(accepted) =>
      if accepted then Accept(d, log, p, slot, operation).(lost := log.lost + [|log.cmms|]) else log
  }

  /** What the request adds to the log: an order for each attempt that the CMMS accepts. */
  function CallLog(d: Slice, log: Log, p: nat, slot: nat, operation: CmmsOperation, replies: nat -> Reply, from: nat,
                   left: nat): Log
    requires left >= 1
    decreases left
  {
    var after := AttemptLog(d, log, p, slot, operation, replies(from));
    if replies(from).Unavailable? && left > 1 then CallLog(d, after, p, slot, operation, replies, from + 1, left - 1)
    else after
  }

  function OperationsOf(cmms: seq<CmmsWrite>): (r: seq<CmmsOperation>)
    ensures |r| == |cmms| && forall k :: 0 <= k < |r| ==> r[k] == cmms[k].operation
  {
    seq(|cmms|, k requires 0 <= k < |cmms| => cmms[k].operation)
  }

  lemma {:induction false} OrdersFromFront(replies: nat -> Reply, from: nat, upto: nat)
    requires from < upto
    ensures Cmms.Orders(replies, from, upto)
      == (if Accepts(replies(from)) then 1 else 0) + Cmms.Orders(replies, from + 1, upto)
    decreases upto
  {
    if from + 1 < upto { OrdersFromFront(replies, from, upto - 1); }
  }

  /** The log gets exactly the orders that the request counts, all for this operation. */
  lemma {:induction false} CallLogOrders(d: Slice, log: Log, p: nat, slot: nat, operation: CmmsOperation,
                                         replies: nat -> Reply, from: nat, left: nat)
    requires left >= 1
    ensures OperationsOf(CallLog(d, log, p, slot, operation, replies, from, left).cmms)
      == OperationsOf(log.cmms) + Repeat(operation, Cmms.Orders(replies, from, from + Exchange(replies, from, left).attempts))
    decreases left
  {
    var upto := from + Exchange(replies, from, left).attempts;
    OrdersFromFront(replies, from, upto);
    if replies(from).Unavailable? && left > 1 {
      var after := AttemptLog(d, log, p, slot, operation, replies(from));
      CallLogOrders(d, after, p, slot, operation, replies, from + 1, left - 1);
    }
  }

  lemma FirstReply(replies: nat -> Reply, from: nat, count: nat, rest: seq<ActionEvent>)
    requires count >= 1
    ensures Replies(replies, from, count) + rest == [Attempt(replies(from))] + (Replies(replies, from + 1, count - 1) + rest)
  {
  }

  /** The last attempt: accepted, refused, or the last one allowed. */
  lemma LastAttempt(env: Env, d: Slice, log: Log, p: nat, ops: seq<CmmsOperation>, outs: seq<OpResult>,
                    start: nat, attempt: nat, reply: Reply, rest: seq<ActionEvent>)
    requires |outs| < |ops| && 1 <= attempt <= MaxAttempts(env)
    requires reply.Unavailable? ==> attempt == MaxAttempts(env)
    ensures Acts(env, d, log, p, Calling(ops, outs, start, attempt), [Attempt(reply)] + rest)
      == Acts(env, d, AttemptLog(d, log, p, |outs|, ops[|outs|], reply), p,
              Recording(ops, outs, start, if reply.Ok? then Done(reply.reference) else Refused), rest)
  {
    ActsStep(env, d, log, p, Calling(ops, outs, start, attempt), Attempt(reply), rest);
  }

  /** An attempt that finds the service unavailable, with another one left. */
  lemma NextAttempt(env: Env, d: Slice, log: Log, p: nat, ops: seq<CmmsOperation>, outs: seq<OpResult>,
                    start: nat, attempt: nat, reply: Reply, rest: seq<ActionEvent>)
    requires |outs| < |ops| && 1 <= attempt < MaxAttempts(env) && reply.Unavailable?
    ensures Acts(env, d, log, p, Calling(ops, outs, start, attempt), [Attempt(reply)] + rest)
      == Acts(env, d, AttemptLog(d, log, p, |outs|, ops[|outs|], reply), p, Calling(ops, outs, start, attempt + 1), rest)
  {
    ActsStep(env, d, log, p, Calling(ops, outs, start, attempt), Attempt(reply), rest);
  }

  lemma CallGoesOn(env: Env, d: Slice, log: Log, p: nat, ops: seq<CmmsOperation>, outs: seq<OpResult>, start: nat,
                   attempt: nat, replies: nat -> Reply, from: nat, count: nat, rest: seq<ActionEvent>)
    requires |outs| < |ops| && 1 <= attempt < MaxAttempts(env) && count >= 1 && replies(from).Unavailable?
    ensures Acts(env, d, log, p, Calling(ops, outs, start, attempt), Replies(replies, from, count) + rest)
      == Acts(env, d, AttemptLog(d, log, p, |outs|, ops[|outs|], replies(from)), p,
              Calling(ops, outs, start, attempt + 1), Replies(replies, from + 1, count - 1) + rest)
  {
    FirstReply(replies, from, count, rest);
    NextAttempt(env, d, log, p, ops, outs, start, attempt, replies(from), Replies(replies, from + 1, count - 1) + rest);
  }

  lemma CallEnds(env: Env, d: Slice, log: Log, p: nat, ops: seq<CmmsOperation>, outs: seq<OpResult>, start: nat,
                 attempt: nat, replies: nat -> Reply, from: nat, result: OpResult, rest: seq<ActionEvent>)
    requires |outs| < |ops| && 1 <= attempt <= MaxAttempts(env)
    requires replies(from).Unavailable? ==> attempt == MaxAttempts(env)
    requires result == if replies(from).Ok? then Done(replies(from).reference) else Refused
    ensures Acts(env, d, log, p, Calling(ops, outs, start, attempt), Replies(replies, from, 1) + rest)
      == Acts(env, d, AttemptLog(d, log, p, |outs|, ops[|outs|], replies(from)), p,
              Recording(ops, outs, start, result), rest)
  {
    FirstReply(replies, from, 1, rest);
    assert Replies(replies, from + 1, 0) + rest == rest;
    LastAttempt(env, d, log, p, ops, outs, start, attempt, replies(from), rest);
  }

  /** The attempts of the protocol end where the client's request does. */
  lemma {:induction false} CallSteps(env: Env, d: Slice, log: Log, p: nat, ops: seq<CmmsOperation>, outs: seq<OpResult>,
                                     start: nat, attempt: nat, replies: nat -> Reply, from: nat, rest: seq<ActionEvent>)
    requires |outs| < |ops| && 1 <= attempt <= MaxAttempts(env)
    ensures
      var left := MaxAttempts(env) + 1 - attempt;
      var x := Exchange(replies, from, left);
      Acts(env, d, log, p, Calling(ops, outs, start, attempt), Replies(replies, from, x.attempts) + rest)
        == Acts(env, d, CallLog(d, log, p, |outs|, ops[|outs|], replies, from, left), p,
                Recording(ops, outs, start, x.result), rest)
    decreases MaxAttempts(env) - attempt
  {
    var x := Exchange(replies, from, MaxAttempts(env) + 1 - attempt);
    if replies(from).Unavailable? && attempt < MaxAttempts(env) {
      CallGoesOn(env, d, log, p, ops, outs, start, attempt, replies, from, x.attempts, rest);
      var first := AttemptLog(d, log, p, |outs|, ops[|outs|], replies(from));
      CallSteps(env, d, first, p, ops, outs, start, attempt + 1, replies, from + 1, rest);
    } else {
      CallEnds(env, d, log, p, ops, outs, start, attempt, replies, from, x.result, rest);
    }
  }

  function OneOperation(replies: nat -> Reply, from: nat, bound: nat): seq<ActionEvent>
    requires bound >= 1
  {
    [OpenAttempt] + (Replies(replies, from, Exchange(replies, from, bound).attempts) + [RecordOutcome])
  }

  function AddRow(log: Log, p: nat): Log { log.(attemptPass := log.attemptPass + [p]) }

  function OperationLog(d: Slice, log: Log, p: nat, slot: nat, operation: CmmsOperation, replies: nat -> Reply,
                        from: nat, bound: nat): Log
    requires bound >= 1
  {
    AddRow(CallLog(d, AddRow(log, p), p, slot, operation, replies, from, bound), p)
  }

  lemma CallLogApprovals(d: Slice, e: Slice, log: Log, p: nat, slot: nat, operation: CmmsOperation,
                         replies: nat -> Reply, from: nat, left: nat)
    requires left >= 1 && |d.approvals| == |e.approvals|
    ensures CallLog(d, log, p, slot, operation, replies, from, left) == CallLog(e, log, p, slot, operation, replies, from, left)
    decreases left
  {
    if replies(from).Unavailable? && left > 1 {
      var after := AttemptLog(d, log, p, slot, operation, replies(from));
      CallLogApprovals(d, e, after, p, slot, operation, replies, from + 1, left - 1);
    }
  }

  lemma Opens(env: Env, before: Slice, log: Log, p: nat, ops: seq<CmmsOperation>, outs: seq<OpResult>, start: nat,
              rest: seq<ActionEvent>)
    requires |outs| < |ops|
    ensures Acts(env, before, log, p, Opening(ops, outs, start), [OpenAttempt] + rest)
      == Acts(env, RecordActionExecution(before, ops[|outs|], Pending, ""), AddRow(log, p), p,
              Calling(ops, outs, start, 1), rest)
  {
    ActsStep(env, before, log, p, Opening(ops, outs, start), OpenAttempt, rest);
  }

  lemma Records(env: Env, d: Slice, pending: Slice, log: Log, p: nat, ops: seq<CmmsOperation>, outs: seq<OpResult>,
                start: nat, result: OpResult, rest: seq<ActionEvent>)
    requires |outs| < |ops| && pending == RecordActionExecution(Executing(d, ops, outs), ops[|outs|], Pending, "")
    ensures Acts(env, pending, log, p, Recording(ops, outs, start, result), [RecordOutcome] + rest)
      == Acts(env, Executing(d, ops, outs + [result]), AddRow(log, p), p, Opening(ops, outs + [result], start), rest)
  {
    ActsStep(env, pending, log, p, Recording(ops, outs, start, result), RecordOutcome, rest);
    OneMoreOutcome(d, ops, outs, result);
  }

  /** One operation: its pending row, its attempts, its outcome row. */
  lemma OperationSteps(env: Env, d: Slice, log: Log, p: nat, ops: seq<CmmsOperation>, outs: seq<OpResult>, start: nat,
                       replies: nat -> Reply, from: nat, rest: seq<ActionEvent>)
    requires |outs| < |ops|
    ensures
      var bound := MaxAttempts(env);
      var result := Exchange(replies, from, bound).result;
      Acts(env, Executing(d, ops, outs), log, p, Opening(ops, outs, start), OneOperation(replies, from, bound) + rest)
        == Acts(env, Executing(d, ops, outs + [result]), OperationLog(d, log, p, |outs|, ops[|outs|], replies, from, bound),
                p, Opening(ops, outs + [result], start), rest)
  {
    var bound := MaxAttempts(env);
    var x := Exchange(replies, from, bound);
    var attempts := Replies(replies, from, x.attempts);
    var before := Executing(d, ops, outs);
    var pending := RecordActionExecution(before, ops[|outs|], Pending, "");
    assert OneOperation(replies, from, bound) + rest == [OpenAttempt] + (attempts + ([RecordOutcome] + rest));
    Opens(env, before, log, p, ops, outs, start, attempts + ([RecordOutcome] + rest));
    CallSteps(env, pending, AddRow(log, p), p, ops, outs, start, 1, replies, from, [RecordOutcome] + rest);
    CallLogApprovals(pending, d, AddRow(log, p), p, |outs|, ops[|outs|], replies, from, bound);
    Records(env, d, pending, CallLog(d, AddRow(log, p), p, |outs|, ops[|outs|], replies, from, bound), p, ops, outs, start,
            x.result, rest);
  }

  // ---------------------------------------------------------------- the whole pass

  lemma LastStep(env: Env, d: Slice, log: Log, p: nat, ops: seq<CmmsOperation>, outs: seq<OpResult>, start: nat)
      returns (after: Log)
    requires |outs| == |ops|
    ensures Acts(env, Executing(d, ops, outs), log, p, Opening(ops, outs, start), [SaveResult])
      == Some(ActionEffect(Landed(d, ops, outs), after, None))
    ensures after.cmms == log.cmms
  {
    ActsEnd(env, Executing(d, ops, outs), log, p, Opening(ops, outs, start), SaveResult);
    after := Act(env, Executing(d, ops, outs), log, p, Opening(ops, outs, start), SaveResult).value.log;
  }

  /** The protocol has a pass from here to the slice of these outcomes that places these further orders. */
  ghost predicate Leads(env: Env, d: Slice, log: Log, p: nat, pc: ActionPc, steps: seq<ActionEvent>, final: Slice,
                        orders: seq<CmmsOperation>) {
    match Acts(env, d, log, p, pc, steps)
    case Some(x) => x.db == final && x.rest == None && OperationsOf(x.log.cmms) == OperationsOf(log.cmms) + orders
    case None => false
  }

  lemma NextBatch(replies: nat -> Reply, from: nat, bound: nat, ops: seq<CmmsOperation>, k: nat)
    requires bound >= 1 && k < |ops|
    ensures Requests(replies, from, bound, ops[..k + 1]) == OneMore(replies, bound, Requests(replies, from, bound, ops[..k]), ops[k])
  {
    assert ops[..k + 1][..k] == ops[..k];
  }

  lemma OperationLogOrders(d: Slice, log: Log, p: nat, slot: nat, operation: CmmsOperation, replies: nat -> Reply,
                           before: Batch, bound: nat)
    requires bound >= 1
    ensures OperationsOf(OperationLog(d, log, p, slot, operation, replies, before.sent, bound).cmms)
      == OperationsOf(log.cmms) + Repeat(operation, Cmms.Orders(replies, before.sent, OneMore(replies, bound, before, operation).sent))
  {
    CallLogOrders(d, AddRow(log, p), p, slot, operation, replies, before.sent, bound);
  }

  /** Executing one operation first adds its orders to those that follow. */
  lemma LeadsOver(env: Env, d: Slice, log: Log, p: nat, ops: seq<CmmsOperation>, start: nat, replies: nat -> Reply,
                  before: Batch, rest: seq<ActionEvent>, final: Slice, later: seq<CmmsOperation>)
      returns (orders: seq<CmmsOperation>)
    requires |before.outs| < |ops|
    requires
      var k, bound := |before.outs|, MaxAttempts(env);
      var next := OneMore(replies, bound, before, ops[k]);
      Leads(env, Executing(d, ops, next.outs), OperationLog(d, log, p, k, ops[k], replies, before.sent, bound), p,
            Opening(ops, next.outs, start), rest, final, later)
    ensures
      var steps := OneOperation(replies, before.sent, MaxAttempts(env)) + rest;
      Leads(env, Executing(d, ops, before.outs), log, p, Opening(ops, before.outs, start), steps, final, orders)
    ensures before.orders + orders == OneMore(replies, MaxAttempts(env), before, ops[|before.outs|]).orders + later
  {
    var k, bound := |before.outs|, MaxAttempts(env);
    OperationSteps(env, d, log, p, ops, before.outs, start, replies, before.sent, rest);
    OperationLogOrders(d, log, p, k, ops[k], replies, before, bound);
    var own := Repeat(ops[k], Cmms.Orders(replies, before.sent, OneMore(replies, bound, before, ops[k]).sent));
    orders := own + later;
    assert OperationsOf(log.cmms) + own + later == OperationsOf(log.cmms) + orders;
    assert before.orders + own + later == before.orders + orders;
  }

  /** The operations from the k-th on, whatever they are answered, and the result. */
  lemma {:induction false} RemainingSteps(env: Env, d: Slice, log: Log, p: nat, ops: seq<CmmsOperation>, start: nat,
                                          replies: nat -> Reply, from: nat, k: nat)
      returns (steps: seq<ActionEvent>, orders: seq<CmmsOperation>)
    requires k <= |ops|
    ensures
      var bound := MaxAttempts(env);
      var all, before := Requests(replies, from, bound, ops), Requests(replies, from, bound, ops[..k]);
      && all.orders == before.orders + orders
      && Leads(env, Executing(d, ops, before.outs), log, p, Opening(ops, before.outs, start), steps,
               Landed(d, ops, all.outs), orders)
    decreases |ops| - k
  {
    var bound := MaxAttempts(env);
    var all, before := Requests(replies, from, bound, ops), Requests(replies, from, bound, ops[..k]);
    if k == |ops| {
      assert ops[..k] == ops;
      var after := LastStep(env, d, log, p, ops, before.outs, start);
      steps, orders := [SaveResult], [];
    } else {
      NextBatch(replies, from, bound, ops, k);
      var after := OperationLog(d, log, p, k, ops[k], replies, before.sent, bound);
      var rest, later := RemainingSteps(env, d, after, p, ops, start, replies, from, k + 1);
      orders := LeadsOver(env, d, log, p, ops, start, replies, before, rest, Landed(d, ops, all.outs), later);
      steps := OneOperation(replies, before.sent, bound) + rest;
    }
  }

  function ActionsOf(d: Slice): seq<RecommendedAction> {
    if d.record.actions.Some? then d.record.actions.value else []
  }

  /** From the guard's query on: reconciling, nothing to execute, or all operations in turn. */
  lemma GuardedSteps(env: Env, d: Slice, log: Log, p: nat, replies: nat -> Reply, from: nat)
      returns (steps: seq<ActionEvent>)
    ensures
      var all := Requests(replies, from, MaxAttempts(env), ToExecute(d));
      Leads(env, d, log, p, Guarding(ActionsOf(d)), steps, Handled(d, all.outs), all.orders)
  {
    var pc := Act(env, d, log, p, Guarding(ActionsOf(d)), CheckExecuted).value.rest.value;
    if ToExecute(d) == [] {
      steps := [SaveResult];
      ActsEnd(env, d, log, p, pc, SaveResult);
    } else {
      var ops := ToExecute(d);
      NothingYet(d, ops);
      assert ops[..0] == [];
      var orders;
      steps, orders := RemainingSteps(env, d, log, p, ops, |d.attempts|, replies, from, 0);
      assert [] + orders == orders;
    }
    ActsStep(env, d, log, p, Guarding(ActionsOf(d)), CheckExecuted, steps);
    steps := [CheckExecuted] + steps;
  }

  /** Whatever the CMMS answers, the protocol has a pass that takes an approved incident to the very slice that the
      handler leaves behind, and that places the very orders the handler's client placed. */
  lemma HandlerIsARun(env: Env, d: Slice, log: Log, p: nat, replies: nat -> Reply, from: nat)
      returns (steps: seq<ActionEvent>)
    requires d.record.status == Approved
    ensures
      var all := Requests(replies, from, MaxAttempts(env), ToExecute(d));
      Leads(env, d, log, p, ViewReading, steps, Handled(d, all.outs), all.orders)
  {
    steps := GuardedSteps(env, d, log, p, replies, from);
    ActsStep(env, d, log, p, ViewReading, ReadView, steps);
    steps := [ReadView] + steps;
  }
}
