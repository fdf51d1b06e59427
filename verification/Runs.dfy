/** All incidents together: runs of the whole system, and what holds over every run. */
module Runs {
  import opened Wrappers
  import opened Incidents
  import opened Protocol
  import opened Invariant
  import opened DecisionSteps
  import opened GrowthSteps
  import ExclusiveSteps
  import ExecutionSteps
  import OrderSteps
  import RepeatSteps
  import SourceSteps
  import AssessmentSteps
  import ClosingSteps

  type Id = nat

  type Sys = map<Id, Case>

  datatype SysEvent =
    | Detected(id: Id, site: string, equipment: string)   // a new incident row
    | On(id: Id, event: Event)

  predicate Active(s: Sys, id: Id, equipment: string) {
    id in s && s[id].db.record.equipment == equipment && s[id].db.record.status != Resolved
  }

  /** The Detection Agent inserts a row only when the equipment has no incident that is not resolved. */
  function SysNext(env: Env, s: Sys, e: SysEvent): Option<Sys> {
    match e
    case Detected(id, site, equipment) =>
      if id in s || exists other :: other in s && Active(s, other, equipment) then None
      else Some(s[id := NewCase(site, equipment)])
    case On(id, event) =>
      if id !in s || Next(env, s[id], event) == None then None
      else Some(s[id := Next(env, s[id], event).value])
  }

  predicate IsRun(env: Env, events: seq<SysEvent>, states: seq<Sys>) {
    && |states| == |events| + 1
    && states[0] == map[]
    && forall i :: 0 <= i < |events| ==> SysNext(env, states[i], events[i]) == Some(states[i + 1])
  }

  // ---------------------------------------------------------------- the invariant over runs

  lemma NewCaseSatisfies(env: Env, site: string, equipment: string)
    ensures Inv(env, NewCase(site, equipment))
  {
  }

  lemma EventKeeps(env: Env, c: Case, e: Event, after: Case)
    requires Inv(env, c) && Next(env, c, e) == Some(after)
    ensures Inv(env, after) && Grows(c, after)
  {
    ExclusiveSteps.ExclusiveKept(env, c, e, after);
    PipelineSteps.PipelineKept(env, c, e, after);
    SourceSteps.SourcedKept(env, c, e, after);
    AssessmentSteps.AssessedKept(env, c, e, after);
    DecidedKept(env, c, e, after);
    ExecutionSteps.ExecutionsKept(env, c, e, after);
    OrderSteps.OrderedKept(env, c, e, after);
    RepeatSteps.RepeatsKept(env, c, e, after);
    ClosingSteps.ClosingKept(env, c, e, after);
    EveryEventGrows(env, c, e, after);
  }

  lemma OnlyOneIncident(env: Env, s: Sys, e: SysEvent, after: Sys, id: Id)
    requires SysNext(env, s, e) == Some(after) && id in after
    ensures e.id == id && e.Detected? ==> id !in s && after[id] == NewCase(e.site, e.equipment)
    ensures e.id == id && e.On? ==> id in s && Next(env, s[id], e.event) == Some(after[id])
    ensures e.id != id ==> id in s && after[id] == s[id]
  {
  }

  lemma {:induction false} RunKeeps(env: Env, events: seq<SysEvent>, states: seq<Sys>, i: nat, id: Id)
    requires IsRun(env, events, states) && i < |states| && id in states[i]
    ensures Inv(env, states[i][id])
  {
    var e := events[i - 1];
    OnlyOneIncident(env, states[i - 1], e, states[i], id);
    if e.id == id && e.Detected? {
      NewCaseSatisfies(env, e.site, e.equipment);
    } else {
      RunKeeps(env, events, states, i - 1, id);
      if e.id == id { EventKeeps(env, states[i - 1][id], e.event, states[i][id]); }
    }
  }

  lemma StepGrows(env: Env, events: seq<SysEvent>, states: seq<Sys>, i: nat, id: Id)
    requires IsRun(env, events, states) && i + 1 < |states| && id in states[i]
    ensures id in states[i + 1] && Grows(states[i][id], states[i + 1][id])
  {
    OnlyOneIncident(env, states[i], events[i], states[i + 1], id);
    if events[i].id == id {
      RunKeeps(env, events, states, i, id);
      EventKeeps(env, states[i][id], events[i].event, states[i + 1][id]);
    }
  }

  lemma {:induction false} RunGrows(env: Env, events: seq<SysEvent>, states: seq<Sys>, i: nat, j: nat, id: Id)
    requires IsRun(env, events, states) && i <= j < |states| && id in states[i]
    ensures id in states[j] && Grows(states[i][id], states[j][id])
  {
    if i < j {
      RunGrows(env, events, states, i, j - 1, id);
      StepGrows(env, events, states, j - 1, id);
      GrowsTransitive(states[i][id], states[j - 1][id], states[j][id]);
    }
  }
}
