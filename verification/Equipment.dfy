/** One active incident for each equipment: when it holds, and which event breaks it. */
module Equipment {
  import opened Wrappers
  import opened Incidents
  import opened Protocol
  import opened Invariant
  import opened Runs

  ghost predicate OneActive(s: Sys) {
    forall a, b | a in s && b in s && Active(s, a, s[a].db.record.equipment) && Active(s, b, s[a].db.record.equipment) :: a == b
  }

  /** The event is about to write a stage status: anything but a resolution. */
  predicate WritesStage(c: Case, e: Event) {
    match e
    case DiagnosisStep(_, d) => d.SaveDiagnosis?
    case StageStep(_, s) => s.RiskSave? || s.PlanSave? || s.GateSave?
    case ActionStep(_, a) => a.SaveResult?
    case CallStep(k, a) => a.SaveCall? && k in c.calls && c.calls[k].Deciding?
    case _ => false
  }

  lemma StageStatus(env: Env, d: Slice, pc: StagePc, e: StageEvent, x: Effect<StagePc>)
    requires StageReady(d, pc) && Orchestrate(env, d, pc, e) == Some(x)
    ensures if e.RiskSave? || e.PlanSave? || e.GateSave? then x.db.record.status != Resolved
            else x.db.record.status == d.record.status
  {
  }

  lemma ActionStatus(env: Env, d: Slice, log: Log, p: nat, pc: ActionPc, e: ActionEvent, x: ActionEffect)
    requires Act(env, d, log, p, pc, e) == Some(x)
    ensures if e.SaveResult? then x.db.record.status != Resolved else x.db.record.status == d.record.status
  {
  }

  lemma CallStatus(d: Slice, log: Log, pc: CallPc, e: CallEvent, x: CallEffect)
    requires Serve(d, log, pc, e) == Some(x)
    ensures if e.SaveCall? && pc.Deciding? then x.db.record.status != Resolved
            else x.db.record.status == d.record.status || x.db.record.status == Resolved
  {
  }

  /** Exactly the stage writes leave an incident in a status other than the one it had or `resolved`. */
  lemma EventStatus(env: Env, c: Case, e: Event, after: Case)
    requires Pipeline(c) && Next(env, c, e) == Some(after)
    ensures if WritesStage(c, e) then after.db.record.status != Resolved
            else after.db.record.status == c.db.record.status || after.db.record.status == Resolved
  {
    match e
    case StageStep(p, s) => StageStatus(env, c.db, c.stage.passes[p], s, Orchestrate(env, c.db, c.stage.passes[p], s).value);
    case ActionStep(p, a) => ActionStatus(env, c.db, c.log, p, c.action.passes[p], a, Act(env, c.db, c.log, p, c.action.passes[p], a).value);
    case CallStep(k, a) => CallStatus(c.db, c.log, c.calls[k], a, Serve(c.db, c.log, c.calls[k], a).value);
    case _ =>
  }

  /** A stage write lands on a resolved incident whose equipment already has a new active one. */
  ghost predicate Reopens(s: Sys, e: SysEvent) {
    && e.On? && e.id in s
    && s[e.id].db.record.status == Resolved
    && WritesStage(s[e.id], e.event)
    && exists other :: other in s && Active(s, other, s[e.id].db.record.equipment)
  }

  lemma DetectionKeepsOne(env: Env, s: Sys, e: SysEvent, after: Sys)
    requires OneActive(s) && e.Detected? && SysNext(env, s, e) == Some(after)
    ensures OneActive(after)
  {
    forall a, b | a in after && b in after && Active(after, a, after[a].db.record.equipment)
                  && Active(after, b, after[a].db.record.equipment)
      ensures a == b
    {
      if a != e.id && b != e.id {
        assert Active(s, a, s[a].db.record.equipment) && Active(s, b, s[a].db.record.equipment);
      } else if a != e.id {
        assert Active(s, a, e.equipment);
      } else if b != e.id {
        assert Active(s, b, e.equipment);
      }
    }
  }

  /** What the change of one incident's status means for all of them. */
  lemma OneChanges(s: Sys, id: Id, changed: Case)
    requires OneActive(s) && id in s && changed.db.record.equipment == s[id].db.record.equipment
    requires changed.db.record.status == s[id].db.record.status || changed.db.record.status == Resolved
      || s[id].db.record.status != Resolved
      || !(exists other :: other in s && Active(s, other, s[id].db.record.equipment))
    ensures OneActive(s[id := changed])
  {
    var after := s[id := changed];
    forall a, b | a in after && b in after && Active(after, a, after[a].db.record.equipment)
                  && Active(after, b, after[a].db.record.equipment)
      ensures a == b
    {
      if a != id && b != id {
        assert Active(s, a, s[a].db.record.equipment) && Active(s, b, s[a].db.record.equipment);
      } else if a != b {
        var other := if a == id then b else a;
        assert Active(s, other, s[id].db.record.equipment);
      }
    }
  }

  lemma StepOutcome(env: Env, events: seq<SysEvent>, states: seq<Sys>, i: nat)
    requires IsRun(env, events, states) && i + 1 < |states| && events[i].On?
    ensures
      var s, e, after := states[i], events[i], states[i + 1];
      && e.id in s && e.id in after && after == s[e.id := after[e.id]]
      && after[e.id].db.record.equipment == s[e.id].db.record.equipment
      && if WritesStage(s[e.id], e.event) then after[e.id].db.record.status != Resolved
         else after[e.id].db.record.status == s[e.id].db.record.status || after[e.id].db.record.status == Resolved
  {
    var s, e, after := states[i], events[i], states[i + 1];
    RunKeeps(env, events, states, i, e.id);
    EventKeeps(env, s[e.id], e.event, after[e.id]);
    EventStatus(env, s[e.id], e.event, after[e.id]);
  }

  /** The step keeps one active incident for each equipment if and only if it is not a stage write on a
      resolved incident whose equipment has an active one. */
  lemma OneActiveStep(env: Env, events: seq<SysEvent>, states: seq<Sys>, i: nat)
    requires IsRun(env, events, states) && i + 1 < |states| && OneActive(states[i])
    ensures OneActive(states[i + 1]) <==> !Reopens(states[i], events[i])
  {
    var s, e, after := states[i], events[i], states[i + 1];
    if e.Detected? {
      DetectionKeepsOne(env, s, e, after);
    } else {
      StepOutcome(env, events, states, i);
      if Reopens(s, e) {
        var other :| other in s && Active(s, other, s[e.id].db.record.equipment);
        assert other in after && Active(after, other, after[e.id].db.record.equipment);
        assert Active(after, e.id, after[e.id].db.record.equipment);
      } else {
        OneChanges(s, e.id, after[e.id]);
      }
    }
  }

  /** In every run without such a write, each equipment has at most one active incident throughout. */
  lemma {:induction false} OneActiveThroughout(env: Env, events: seq<SysEvent>, states: seq<Sys>, i: nat)
    requires IsRun(env, events, states) && i < |states|
    requires forall j :: 0 <= j < i ==> !Reopens(states[j], events[j])
    ensures OneActive(states[i])
  {
    if i > 0 {
      OneActiveThroughout(env, events, states, i - 1);
      OneActiveStep(env, events, states, i - 1);
    }
  }
}
