/** Runs that show which promises the pipeline does not keep. */
module Examples {
  import opened Wrappers
  import opened Mapping
  import opened Incidents
  import opened Protocol
  import opened Runs
  import opened Equipment

  /** The shipped configuration. */
  const HITL := Risk.Config(1, 2, 2, 0, [Risk.Rule(50, 3), Risk.Rule(70, 2)], 85, 2, 1.0, 10.0, 0.3)

  const ENV := Env(HITL, map["Operator" := 0, "MaintenanceEngineer" := 2, "PlantManager" := 3],
                   {"MaintenanceEngineer", "PlantManager"}, 4)

  const MANAGER := Principal("S", "PlantManager", "p")

  /** The events of one incident, one after the other. */
  function Play(c: Case, events: seq<Event>): Option<Case> {
    if events == [] then Some(c)
    else
      var before := Play(c, events[..|events| - 1]);
      if before == None then None else Next(ENV, before.value, events[|events| - 1])
  }

  lemma Then(start: Case, events: seq<Event>, c: Case, e: Event, after: Case)
    requires Play(start, events) == Some(c) && Next(ENV, c, e) == Some(after)
    ensures Play(start, events + [e]) == Some(after)
  {
    assert (events + [e])[..|events|] == events;
  }

  /** One pass running, or none. */
  function Solo<T>(p: nat, pc: Option<T>): Agent<T> {
    if pc.Some? then Agent(true, map[p := pc.value]) else Idle()
  }

  lemma SoloContinues<T>(p: nat, pc: T, rest: Option<T>)
    ensures Begin(Idle(), p, pc) == Solo(p, Some(pc))
    ensures Continue(Solo(p, Some(pc)), p, rest) == Solo(p, rest)
  {
    assert map[p := pc] - {p} == map[];
    if rest.Some? { assert map[p := pc][p := rest.value] == map[p := rest.value]; }
  }

  lemma Diagnosis(start: Case, events: seq<Event>, c: Case, p: nat, pc: DiagnosisPc, e: DiagnosisEvent)
      returns (more: seq<Event>, after: Case)
    requires Play(start, events) == Some(c) && c.diagnosis == Solo(p, Some(pc)) && Diagnose(c.db, pc, e).Some?
    ensures Play(start, more) == Some(after) && events < more
    ensures
      var x := Diagnose(c.db, pc, e).value;
      after == c.(db := x.db, bus := c.bus + x.publish, diagnosis := Solo(p, x.rest))
  {
    var x := Diagnose(c.db, pc, e).value;
    SoloContinues(p, pc, x.rest);
    after := c.(db := x.db, bus := c.bus + x.publish, diagnosis := Solo(p, x.rest));
    more := events + [DiagnosisStep(p, e)];
    Then(start, events, c, DiagnosisStep(p, e), after);
  }

  lemma Staging(start: Case, events: seq<Event>, c: Case, p: nat, pc: StagePc, e: StageEvent)
      returns (more: seq<Event>, after: Case)
    requires Play(start, events) == Some(c) && c.stage == Solo(p, Some(pc)) && Orchestrate(ENV, c.db, pc, e).Some?
    ensures Play(start, more) == Some(after) && events < more
    ensures
      var x := Orchestrate(ENV, c.db, pc, e).value;
      after == c.(db := x.db, bus := c.bus + x.publish, stage := Solo(p, x.rest))
  {
    var x := Orchestrate(ENV, c.db, pc, e).value;
    SoloContinues(p, pc, x.rest);
    after := c.(db := x.db, bus := c.bus + x.publish, stage := Solo(p, x.rest));
    more := events + [StageStep(p, e)];
    Then(start, events, c, StageStep(p, e), after);
  }

  lemma Acting(start: Case, events: seq<Event>, c: Case, p: nat, pc: ActionPc, e: ActionEvent)
      returns (more: seq<Event>, after: Case)
    requires Play(start, events) == Some(c) && c.action == Solo(p, Some(pc)) && Act(ENV, c.db, c.log, p, pc, e).Some?
    ensures Play(start, more) == Some(after) && events < more
    ensures
      var x := Act(ENV, c.db, c.log, p, pc, e).value;
      after == c.(db := x.db, log := x.log, action := Solo(p, x.rest))
  {
    var x := Act(ENV, c.db, c.log, p, pc, e).value;
    SoloContinues(p, pc, x.rest);
    after := c.(db := x.db, log := x.log, action := Solo(p, x.rest));
    more := events + [ActionStep(p, e)];
    Then(start, events, c, ActionStep(p, e), after);
  }

  lemma StageBegins(start: Case, events: seq<Event>, c: Case, done: Stage) returns (more: seq<Event>, after: Case)
    requires Play(start, events) == Some(c) && c.stage == Idle() && StageDone(done) in c.bus
    ensures Play(start, more) == Some(after) && events < more
    ensures after == c.(stage := Solo(c.next, Some(FirstStep(done))), next := c.next + 1)
  {
    SoloContinues(c.next, FirstStep(done), None);
    after := c.(stage := Solo(c.next, Some(FirstStep(done))), next := c.next + 1);
    more := events + [StageStart(done)];
    Then(start, events, c, StageStart(done), after);
  }

  lemma ActionBegins(start: Case, events: seq<Event>, c: Case) returns (more: seq<Event>, after: Case)
    requires Play(start, events) == Some(c) && c.action == Idle() && IncidentApproved in c.bus
    ensures Play(start, more) == Some(after) && events < more
    ensures after == c.(action := Solo(c.next, Some(ViewReading)), next := c.next + 1)
  {
    SoloContinues(c.next, ViewReading, None);
    after := c.(action := Solo(c.next, Some(ViewReading)), next := c.next + 1);
    more := events + [ActionStart];
    Then(start, events, c, ActionStart, after);
  }

  lemma Admitted(start: Case, events: seq<Event>, c: Case, request: Request) returns (more: seq<Event>, after: Case)
    requires Play(start, events) == Some(c) && c.calls == map[] && Admit(ENV, c.db, request).Some?
    ensures Play(start, more) == Some(after) && events < more
    ensures after == c.(calls := map[c.next := Admit(ENV, c.db, request).value], next := c.next + 1)
  {
    after := c.(calls := map[c.next := Admit(ENV, c.db, request).value], next := c.next + 1);
    more := events + [CallStart(request)];
    Then(start, events, c, CallStart(request), after);
  }

  lemma Served(start: Case, events: seq<Event>, c: Case, k: nat, pc: CallPc) returns (more: seq<Event>, after: Case)
    requires Play(start, events) == Some(c) && c.calls == map[k := pc] && Serve(c.db, c.log, pc, SaveCall).Some?
    ensures Play(start, more) == Some(after) && events < more
    ensures
      var x := Serve(c.db, c.log, pc, SaveCall).value;
      after == c.(db := x.db, log := x.log, calls := if x.rest.Some? then map[k := x.rest.value] else map[])
  {
    var x := Serve(c.db, c.log, pc, SaveCall).value;
    assert map[k := pc] - {k} == map[];
    if x.rest.Some? { assert map[k := pc][k := x.rest.value] == map[k := x.rest.value]; }
    assert c.bus + x.publish == c.bus;
    after := c.(db := x.db, log := x.log, calls := if x.rest.Some? then map[k := x.rest.value] else map[]);
    more := events + [CallStep(k, SaveCall)];
    Then(start, events, c, CallStep(k, SaveCall), after);
  }

  /** A request is admitted and its transaction commits. */
  lemma Requested(start: Case, events: seq<Event>, c: Case, request: Request) returns (more: seq<Event>, after: Case)
    requires Play(start, events) == Some(c) && c.calls == map[] && Admit(ENV, c.db, request).Some?
    ensures Play(start, more) == Some(after) && events < more
    ensures
      var x := Serve(c.db, c.log, Admit(ENV, c.db, request).value, SaveCall).value;
      after == c.(db := x.db, log := x.log, next := c.next + 1,
                  calls := if x.rest.Some? then map[c.next := x.rest.value] else map[])
  {
    more, after := Admitted(start, events, c, request);
    more, after := Served(start, more, after, c.next, Admit(ENV, c.db, request).value);
  }

  // ---------------------------------------------------------------- as runs of the whole system

  lemma Extend(events: seq<SysEvent>, states: seq<Sys>, e: SysEvent, after: Sys)
    requires IsRun(ENV, events, states) && SysNext(ENV, states[|events|], e) == Some(after)
    ensures IsRun(ENV, events + [e], states + [after])
  {
  }

  /** The incident is detected, and then its events happen one after the other. */
  lemma {:induction false} AsRun(played: seq<Event>, c: Case) returns (events: seq<SysEvent>, states: seq<Sys>)
    requires Play(NewCase("S", "E"), played) == Some(c)
    ensures IsRun(ENV, events, states) && |events| == |played| + 1 && states[|events|] == map[1 := c]
  {
    if played == [] {
      events, states := [Detected(1, "S", "E")], [map[], map[1 := c]];
      assert SysNext(ENV, map[], Detected(1, "S", "E")) == Some(map[1 := c]);
    } else {
      var n := |played| - 1;
      var before := Play(NewCase("S", "E"), played[..n]).value;
      events, states := AsRun(played[..n], before);
      assert map[1 := before][1 := c] == map[1 := c];
      Extend(events, states, On(1, played[n]), map[1 := c]);
      events, states := events + [On(1, played[n])], states + [map[1 := c]];
    }
  }

  /** The same, through the state after a first part of the events. */
  lemma {:induction false} AsLongerRun(first: seq<Event>, before: Case, played: seq<Event>, c: Case)
      returns (events: seq<SysEvent>, states: seq<Sys>)
    requires Play(NewCase("S", "E"), first) == Some(before) && first <= played
    requires Play(NewCase("S", "E"), played) == Some(c)
    ensures IsRun(ENV, events, states) && |events| == |played| + 1
    ensures states[|first| + 1] == map[1 := before] && states[|events|] == map[1 := c]
  {
    if first == played {
      events, states := AsRun(played, c);
    } else {
      var n := |played| - 1;
      var last := Play(NewCase("S", "E"), played[..n]).value;
      assert first <= played[..n];
      events, states := AsLongerRun(first, before, played[..n], last);
      assert map[1 := last][1 := c] == map[1 := c];
      Extend(events, states, On(1, played[n]), map[1 := c]);
      events, states := events + [On(1, played[n])], states + [map[1 := c]];
    }
  }

  // ---------------------------------------------------------------- milestones

  /** Nothing is running and nothing has been executed. */
  ghost predicate At(c: Case, status: Status) {
    && c.diagnosis == Idle() && c.stage == Idle() && c.action == Idle() && c.calls == map[] && c.poll == PollIdle
    && c.db.record.site == "S" && c.db.record.equipment == "E" && c.db.record.status == status
    && c.db.attempts == [] && c.log.attemptPass == [] && c.log.cmms == []
    && (status != Approved ==> c.db.approvals == [])
  }

  lemma ReachDiagnosed() returns (events: seq<Event>, c: Case)
    ensures Play(NewCase("S", "E"), events) == Some(c) && At(c, Investigating)
    ensures StageDone(RootCauseStage) in c.bus && c.db.record.confidence == Some(90)
  {
    var start := NewCase("S", "E");
    SoloContinues(0, ReadingState, None);
    c := start.(diagnosis := Solo(0, Some(ReadingState)), next := 1);
    events := [] + [DiagnosisStart];
    assert AnomalyDetected in start.bus * {AnomalyDetected, EvidenceCollected};
    Then(start, [], start, DiagnosisStart, c);
    events, c := Diagnosis(start, events, c, 0, ReadingState, ReadState);
    events, c := Diagnosis(start, events, c, 0, Diagnosing, Answer(Accepted("h", 90)));
    events, c := Diagnosis(start, events, c, 0, SavingDiagnosis("h", 90, true), SaveDiagnosis(false));
    events, c := Diagnosis(start, events, c, 0, AnnouncingDiagnosis, AnnounceDiagnosis);
  }

  lemma ReachAssessing() returns (events: seq<Event>, c: Case, p: nat)
    ensures Play(NewCase("S", "E"), events) == Some(c)
    ensures At(c.(stage := Idle()), Investigating) && c.stage == Solo(p, Some(RiskSaving(Risk.Medium, 2)))
  {
    var start := NewCase("S", "E");
    events, c := ReachDiagnosed();
    p := c.next;
    events, c := StageBegins(start, events, c, RootCauseStage);
    LevelTwo();
    events, c := Staging(start, events, c, p, RiskReading, RiskRead(Risk.Medium));
  }

  lemma LevelTwo()
    ensures Risk.Level(HITL, Risk.Medium, Some(90)) == 2
  {
    Risk.RuleFloorIsGreatest(HITL.rules, 90);
  }

  lemma ReachAssessed() returns (events: seq<Event>, c: Case)
    ensures Play(NewCase("S", "E"), events) == Some(c) && At(c, RiskAssessed)
    ensures StageDone(RiskStage) in c.bus && c.db.record.severity == Some(Risk.Medium)
    ensures c.db.record.hitlLevel == c.db.record.requiredLevel == Some(2)
  {
    var start := NewCase("S", "E");
    var p;
    events, c, p := ReachAssessing();
    events, c := Staging(start, events, c, p, RiskSaving(Risk.Medium, 2), RiskSave);
    events, c := Staging(start, events, c, p, RiskAnnouncing, RiskAnnounce);
  }

  lemma ReachPlanning(actions: seq<RecommendedAction>) returns (events: seq<Event>, c: Case, p: nat)
    ensures Play(NewCase("S", "E"), events) == Some(c) && At(c.(stage := Idle()), RiskAssessed)
    ensures c.stage == Solo(p, Some(PlanSaving(2, actions)))
    ensures c.db.record.hitlLevel == c.db.record.requiredLevel == Some(2)
  {
    var start := NewCase("S", "E");
    events, c := ReachAssessed();
    p := c.next;
    events, c := StageBegins(start, events, c, RiskStage);
    events, c := Staging(start, events, c, p, PlanReading, PlanRead);
    events, c := Staging(start, events, c, p, Planning(2), PlanAnswer(actions));
  }

  lemma ReachPlanned(actions: seq<RecommendedAction>) returns (events: seq<Event>, c: Case)
    ensures Play(NewCase("S", "E"), events) == Some(c) && At(c, AwaitingApproval)
    ensures StageDone(RecommendationStage) in c.bus && c.db.record.actions == Some(actions)
    ensures c.db.record.hitlLevel == c.db.record.requiredLevel == Some(2)
  {
    var start := NewCase("S", "E");
    var p;
    events, c, p := ReachPlanning(actions);
    events, c := Staging(start, events, c, p, PlanSaving(2, actions), PlanSave(false));
    events, c := Staging(start, events, c, p, PlanAnnouncing(true), PlanAnnounce);
    events, c := Staging(start, events, c, p, PlanAnnouncing(false), PlanAnnounce);
  }

  lemma ReachApproved(actions: seq<RecommendedAction>) returns (events: seq<Event>, c: Case)
    ensures Play(NewCase("S", "E"), events) == Some(c) && At(c, Approved)
    ensures IncidentApproved in c.bus && StageDone(RecommendationStage) in c.bus
    ensures c.db.record.actions == Some(actions) && c.db.record.requiredLevel == Some(2) && |c.db.approvals| == 1
  {
    var start := NewCase("S", "E");
    events, c := ReachPlanned(actions);
    var request := Decide(MANAGER, Approve, "");
    assert MayDecide(ENV, c.db.record, MANAGER, Approve, "");
    var k := c.next;
    events, c := Requested(start, events, c, request);
    assert map[k := AnnouncingApproval] - {k} == map[];
    var after := c.(bus := c.bus + {IncidentApproved}, calls := map[]);
    Then(start, events, c, CallStep(k, AnnounceCall), after);
    events, c := events + [CallStep(k, AnnounceCall)], after;
  }

  // ---------------------------------------------------------------- a late gate withdraws an approval

  lemma LateGate(start: Case, events: seq<Event>, c: Case) returns (more: seq<Event>, after: Case)
    requires Play(start, events) == Some(c) && c.stage == Idle() && StageDone(RecommendationStage) in c.bus
    requires c.db.record.status == Approved && c.db.record.requiredLevel == Some(2)
    ensures Play(start, more) == Some(after) && events < more
    ensures after.db.record.status == AwaitingApproval && after.db.approvals == c.db.approvals
  {
    more, after := StageBegins(start, events, c, RecommendationStage);
    more, after := Staging(start, more, after, c.next, GateReading, GateRead);
    more, after := Staging(start, more, after, c.next, GateSaving(AwaitingApproval), GateSave);
  }

  /** A run in which a gate message that arrives after the decision takes an approved incident back to awaiting
      approval. */
  lemma LateGateWithdrawsApproval(actions: seq<RecommendedAction>) returns (events: seq<SysEvent>, states: seq<Sys>, k: nat)
    ensures IsRun(ENV, events, states) && k < |events|
    ensures 1 in states[k] && states[k][1].db.record.status == Approved
    ensures 1 in states[|events|] && states[|events|][1].db.record.status == AwaitingApproval
    ensures states[|events|][1].db.approvals == states[k][1].db.approvals
  {
    var first, before := ReachApproved(actions);
    var played, c := LateGate(NewCase("S", "E"), first, before);
    events, states := AsLongerRun(first, before, played, c);
    k := |first| + 1;
  }

  // ---------------------------------------------------------------- a crash repeats an external order

  /** What the first or the repeated pass finds: an approved incident without a succeeded row. */
  ghost predicate Repeatable(c: Case, actions: seq<RecommendedAction>) {
    && c.db.record.status == Approved && c.db.record.actions == Some(actions)
    && !Executed(c.db) && IncidentApproved in c.bus && |c.db.approvals| == 1
  }

  lemma PassesGuard(start: Case, events: seq<Event>, c: Case, actions: seq<RecommendedAction>)
      returns (more: seq<Event>, after: Case)
    requires Play(start, events) == Some(c) && Mapped(actions).operations != []
    requires Repeatable(c, actions) && c.action == Idle()
    ensures Play(start, more) == Some(after) && events < more
    ensures after == c.(action := Solo(c.next, Some(Opening(Mapped(actions).operations, [], |c.db.attempts|))), next := c.next + 1)
  {
    more, after := ActionBegins(start, events, c);
    more, after := Acting(start, more, after, c.next, ViewReading, ReadView);
    more, after := Acting(start, more, after, c.next, Guarding(actions), CheckExecuted);
  }

  lemma PendingIsNotExecuted(d: Slice, operation: CmmsOperation)
    requires !Executed(d)
    ensures !Executed(RecordActionExecution(d, operation, Pending, ""))
  {
  }

  lemma OpensOrder(start: Case, events: seq<Event>, c: Case, actions: seq<RecommendedAction>,
                   ops: seq<CmmsOperation>, p: nat, n: nat)
      returns (more: seq<Event>, after: Case)
    requires Play(start, events) == Some(c) && ops != [] && Repeatable(c, actions)
    requires c.action == Solo(p, Some(Opening(ops, [], n)))
    ensures Play(start, more) == Some(after) && events < more && Repeatable(after, actions)
    ensures after.log.cmms == c.log.cmms && after.next == c.next
    ensures after.action == Solo(p, Some(Calling(ops, [], n, 1)))
  {
    PendingIsNotExecuted(c.db, ops[0]);
    more, after := Acting(start, events, c, p, Opening(ops, [], n), OpenAttempt);
  }

  lemma AcceptsOrder(start: Case, events: seq<Event>, c: Case, actions: seq<RecommendedAction>,
                     ops: seq<CmmsOperation>, p: nat, n: nat)
      returns (more: seq<Event>, after: Case)
    requires Play(start, events) == Some(c) && ops != [] && Repeatable(c, actions)
    requires c.action == Solo(p, Some(Calling(ops, [], n, 1)))
    ensures Play(start, more) == Some(after) && events < more && Repeatable(after, actions)
    ensures after.log.cmms == c.log.cmms + [CmmsWrite(p, 0, ops[0], 1)] && after.next == c.next
  {
    more, after := Acting(start, events, c, p, Calling(ops, [], n, 1), Attempt(Ok("WO-1")));
  }

  /** A pass gets past the idempotency guard, and the CMMS accepts the order for its first operation. */
  lemma PlacesOrder(start: Case, events: seq<Event>, c: Case, actions: seq<RecommendedAction>, ops: seq<CmmsOperation>)
      returns (more: seq<Event>, after: Case)
    requires Play(start, events) == Some(c) && ops == Mapped(actions).operations && ops != []
    requires Repeatable(c, actions) && c.action == Idle()
    ensures Play(start, more) == Some(after) && events < more
    ensures after.log.cmms == c.log.cmms + [CmmsWrite(c.next, 0, ops[0], 1)]
    ensures Repeatable(after, actions) && after.next == c.next + 1
  {
    var n := |c.db.attempts|;
    more, after := PassesGuard(start, events, c, actions);
    more, after := OpensOrder(start, more, after, actions, ops, c.next, n);
    more, after := AcceptsOrder(start, more, after, actions, ops, c.next, n);
  }

  lemma Crashes(start: Case, events: seq<Event>, c: Case, actions: seq<RecommendedAction>)
      returns (more: seq<Event>, after: Case)
    requires Play(start, events) == Some(c) && Repeatable(c, actions)
    ensures Play(start, more) == Some(after) && events < more
    ensures Repeatable(after, actions) && after.action == Idle() && after.next == c.next && after.log.cmms == c.log.cmms
  {
    after := Crashed(c);
    more := events + [Crash];
    Then(start, events, c, Crash, after);
  }

  /** The Action Agent's description promises that a crash and restart, or a duplicate event, never creates a
      second work order for one approval. In this run it does: the crash falls between the CMMS call and the
      succeeded row, and the approval message is delivered once more. */
  lemma CrashRepeatsOrder(actions: seq<RecommendedAction>) returns (events: seq<SysEvent>, states: seq<Sys>)
    requires Mapped(actions).operations != []
    ensures IsRun(ENV, events, states) && 1 in states[|events|]
    ensures
      var c := states[|events|][1];
      && |c.db.approvals| == 1 && |c.log.cmms| == 2 && c.log.cmms[0].pass != c.log.cmms[1].pass
      && c.log.cmms[0].slot == c.log.cmms[1].slot && c.log.cmms[0].operation == c.log.cmms[1].operation
  {
    var start := NewCase("S", "E");
    var played, c := ReachApproved(actions);
    played, c := PlacesOrder(start, played, c, actions, Mapped(actions).operations);
    played, c := Crashes(start, played, c, actions);
    played, c := PlacesOrder(start, played, c, actions, Mapped(actions).operations);
    events, states := AsRun(played, c);
  }

  // ---------------------------------------------------------------- a retry repeats an external order

  /** The CMMS accepts the order, but its reply does not arrive; the client tries again. */
  lemma LosesReply(start: Case, events: seq<Event>, c: Case, ops: seq<CmmsOperation>, p: nat, n: nat)
      returns (more: seq<Event>, after: Case)
    requires Play(start, events) == Some(c) && ops != [] && |c.db.approvals| == 1
    requires c.action == Solo(p, Some(Calling(ops, [], n, 1)))
    ensures Play(start, more) == Some(after) && events < more && after.db == c.db
    ensures after.log.cmms == c.log.cmms + [CmmsWrite(p, 0, ops[0], 1)]
    ensures after.action == Solo(p, Some(Calling(ops, [], n, 2)))
  {
    more, after := Acting(start, events, c, p, Calling(ops, [], n, 1), Attempt(Unavailable(true)));
  }

  lemma TriesAgain(start: Case, events: seq<Event>, c: Case, ops: seq<CmmsOperation>, p: nat, n: nat)
      returns (more: seq<Event>, after: Case)
    requires Play(start, events) == Some(c) && ops != [] && |c.db.approvals| == 1
    requires c.action == Solo(p, Some(Calling(ops, [], n, 2)))
    ensures Play(start, more) == Some(after) && events < more && after.db == c.db
    ensures after.log.cmms == c.log.cmms + [CmmsWrite(p, 0, ops[0], 1)]
  {
    more, after := Acting(start, events, c, p, Calling(ops, [], n, 2), Attempt(Ok("WO-1")));
  }

  /** A run in which one pass, after one approval and one delivery of its message, places two orders for one
      operation: the reply to the first is lost, and the client retries. */
  lemma RetryRepeatsOrder(actions: seq<RecommendedAction>) returns (events: seq<SysEvent>, states: seq<Sys>)
    requires Mapped(actions).operations != []
    ensures IsRun(ENV, events, states) && 1 in states[|events|]
    ensures
      var c := states[|events|][1];
      && |c.db.approvals| == 1 && |c.log.cmms| == 2 && c.log.cmms[0] == c.log.cmms[1]
  {
    var start, ops := NewCase("S", "E"), Mapped(actions).operations;
    var played, c := ReachApproved(actions);
    var p, n := c.next, |c.db.attempts|;
    played, c := PassesGuard(start, played, c, actions);
    played, c := OpensOrder(start, played, c, actions, ops, p, n);
    played, c := LosesReply(start, played, c, ops, p, n);
    played, c := TriesAgain(start, played, c, ops, p, n);
    events, states := AsRun(played, c);
  }

  // ---------------------------------------------------------------- a resolved incident is reopened

  lemma ReachResolvedWhileAssessing() returns (events: seq<Event>, c: Case, p: nat)
    ensures Play(NewCase("S", "E"), events) == Some(c)
    ensures c.db.record.status == Resolved && c.db.record.equipment == "E"
    ensures c.stage == Solo(p, Some(RiskSaving(Risk.Medium, 2)))
  {
    events, c, p := ReachAssessing();
    events, c := Requested(NewCase("S", "E"), events, c, Resolve(MANAGER));
  }

  /** The running assessment is saved without a look at the status. */
  lemma SavesAnyway(c: Case, p: nat) returns (after: Case)
    requires c.stage == Solo(p, Some(RiskSaving(Risk.Medium, 2)))
    ensures Next(ENV, c, StageStep(p, RiskSave)) == Some(after)
    ensures after.db.record.status == RiskAssessed && after.db.record.equipment == c.db.record.equipment
  {
    after := Next(ENV, c, StageStep(p, RiskSave)).value;
  }

  /** Detection opens another incident for the equipment of a resolved one, which is then reopened. */
  lemma SecondThenReopened(events: seq<SysEvent>, states: seq<Sys>, c: Case, p: nat, after: Case)
      returns (more: seq<SysEvent>, later: seq<Sys>)
    requires IsRun(ENV, events, states) && states[|events|] == map[1 := c]
    requires c.db.record.status == Resolved && c.db.record.equipment == "E"
    requires Next(ENV, c, StageStep(p, RiskSave)) == Some(after)
    ensures IsRun(ENV, more, later) && |more| == |events| + 2
    ensures later[|events| + 1] == map[1 := c, 2 := NewCase("S", "E")]
    ensures later[|events| + 2] == map[1 := after, 2 := NewCase("S", "E")]
  {
    var second := map[1 := c][2 := NewCase("S", "E")];
    Extend(events, states, Detected(2, "S", "E"), second);
    more, later := events + [Detected(2, "S", "E")], states + [second];
    var third := second[1 := after];
    Extend(more, later, On(1, StageStep(p, RiskSave)), third);
    more, later := more + [On(1, StageStep(p, RiskSave))], later + [third];
  }

  lemma TwoActive(a: Case, b: Case)
    requires a.db.record.equipment == b.db.record.equipment && b.db.record.status != Resolved
    ensures OneActive(map[1 := a, 2 := b]) <==> a.db.record.status == Resolved
  {
    var s := map[1 := a, 2 := b];
    assert Active(s, 2, a.db.record.equipment);
    if a.db.record.status != Resolved { assert Active(s, 1, a.db.record.equipment); }
  }

  /** A resolved incident is not final: the assessment that was running when a person resolved it takes it
      back into the pipeline, after detection has opened a second incident for the same equipment. */
  lemma ResolvedIsReopened() returns (events: seq<SysEvent>, states: seq<Sys>, k: nat)
    ensures IsRun(ENV, events, states) && k + 1 == |events|
    ensures 1 in states[k] && states[k][1].db.record.status == Resolved && OneActive(states[k])
    ensures 1 in states[k + 1] && states[k + 1][1].db.record.status == RiskAssessed && !OneActive(states[k + 1])
  {
    var played, c, p := ReachResolvedWhileAssessing();
    events, states := AsRun(played, c);
    var after := SavesAnyway(c, p);
    k := |events| + 1;
    events, states := SecondThenReopened(events, states, c, p, after);
    TwoActive(c, NewCase("S", "E"));
    TwoActive(after, NewCase("S", "E"));
  }
}
