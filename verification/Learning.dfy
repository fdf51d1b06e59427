/** What the learning loop records: the diagnosis that the incident was handled under. */
module Learning {
  import opened Wrappers
  import opened Incidents
  import opened Protocol
  import opened Invariant
  import opened GrowthSteps
  import opened Runs
  import opened Safety
  import ActionFrame

  /** The stored hypothesis, unless it is empty. */
  predicate Tells(r: Record, rootCause: string) {
    r.hypothesis.Some? && rootCause == if r.hypothesis.value == "" then "unrecorded" else r.hypothesis.value
  }

  ghost predicate Remembers(c: Case) {
    && (c.poll != PollIdle ==> Tells(c.db.record, c.poll.rootCause))
    && forall k :: 0 <= k < |c.db.learned| ==> Tells(c.db.record, c.db.learned[k].rootCause)
  }

  lemma PollTells(d: Slice, poll: PollPc, e: PollEvent, x: PollEffect)
    requires Ladder(d) && Poll(d, poll, e) == Some(x) && (poll != PollIdle ==> Tells(d.record, poll.rootCause))
    ensures x.poll != PollIdle ==> Tells(x.db.record, x.poll.rootCause)
    ensures x.db.learned == d.learned || (Tells(d.record, poll.rootCause) && x.db.learned == d.learned + [LearnedRow(poll.rootCause)])
  {
    if e.PollView? { assert Backed(d.record, d.history[|d.history| - 1].to); }
  }

  lemma OthersLearnNothing(env: Env, c: Case, e: Event, after: Case)
    requires Next(env, c, e) == Some(after) && !e.Polling?
    ensures after.db.learned == c.db.learned && (after.poll == c.poll || after.poll == PollIdle)
  {
    match e
    case DiagnosisStep(p, d) => ActionFrame.DiagnoseLeaves(c.db, c.diagnosis.passes[p], d, Diagnose(c.db, c.diagnosis.passes[p], d).value);
    case StageStep(p, s) => ActionFrame.OrchestrateLeaves(env, c.db, c.stage.passes[p], s, Orchestrate(env, c.db, c.stage.passes[p], s).value);
    case CallStep(k, a) => ActionFrame.ServeLeaves(c.db, c.log, c.calls[k], a, Serve(c.db, c.log, c.calls[k], a).value);
    case _ =>
  }

  lemma RemembersOn(env: Env, c: Case, e: Event, after: Case)
    requires Pipeline(c) && Remembers(c) && Next(env, c, e) == Some(after) && Grows(c, after)
    ensures Remembers(after)
  {
    if e.Polling? {
      PollTells(c.db, c.poll, e.poll, Poll(c.db, c.poll, e.poll).value);
    } else {
      OthersLearnNothing(env, c, e, after);
    }
  }

  lemma {:induction false} RunRemembers(env: Env, events: seq<SysEvent>, states: seq<Sys>, i: nat, id: Id)
    requires Reached(env, events, states, i, id)
    ensures Remembers(states[i][id])
    decreases i
  {
    OnlyOneIncident(env, states[i - 1], events[i - 1], states[i], id);
    if id in states[i - 1] {
      RunRemembers(env, events, states, i - 1, id);
      if events[i - 1].id == id {
        RunKeeps(env, events, states, i - 1, id);
        StepGrows(env, events, states, i - 1, id);
        RemembersOn(env, states[i - 1][id], events[i - 1].event, states[i][id]);
      }
    }
  }

  /** In every run, what is learned of an incident is the hypothesis that it stores to the end. */
  lemma LearnedIsTheDiagnosis(env: Env, events: seq<SysEvent>, states: seq<Sys>, i: nat, j: nat, id: Id, k: nat)
    requires Reached(env, events, states, i, id) && i <= j < |states| && k < |states[i][id].db.learned|
    ensures id in states[j] && states[j][id].db.record.hypothesis.Some?
    ensures
      var hypothesis := states[j][id].db.record.hypothesis.value;
      states[i][id].db.learned[k].rootCause == if hypothesis == "" then "unrecorded" else hypothesis
  {
    RunRemembers(env, events, states, i, id);
    assert Tells(states[i][id].db.record, states[i][id].db.learned[k].rootCause);
    RunGrows(env, events, states, i, j, id);
  }
}
