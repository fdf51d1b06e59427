/** A second external order for one operation: exactly when the pipeline places one. */
module Repetition {
  import opened Wrappers
  import opened Incidents
  import opened Protocol
  import opened Invariant
  import opened Runs
  import opened Safety

  /** Two orders for the same operation at the same position of the recommendation. */
  predicate SameOperation(a: CmmsWrite, b: CmmsWrite) {
    a.slot == b.slot && a.operation == b.operation
  }

  /** The CMMS takes this attempt as an order, whether or not it manages to say so. */
  predicate IsOrder(reply: Reply) { reply.Ok? || (reply.Unavailable? && reply.accepted) }

  predicate OrderedBefore(log: Log, w: CmmsWrite) {
    exists v :: 0 <= v < |log.cmms| && SameOperation(log.cmms[v], w)
  }

  /** An earlier attempt of the same call was accepted, and its reply lost. */
  predicate LostByThisCall(log: Log, w: CmmsWrite) {
    exists l :: l in log.lost && l < |log.cmms| && SameOperation(log.cmms[l], w) && log.cmms[l].pass == w.pass
  }

  /** An earlier pass had its order for the operation accepted, and the answer lost. */
  predicate LostByEarlierPass(log: Log, w: CmmsWrite) {
    exists l :: l in log.lost && l < |log.cmms| && SameOperation(log.cmms[l], w) && log.cmms[l].pass < w.pass
  }

  lemma OrderedBeforeIff(rows: seq<AttemptRow>, log: Log, p: nat, pc: ActionPc, w: CmmsWrite)
    requires AllTraced(rows, log, p, pc) && PassReady(rows, log.attemptPass, p, pc) && pc.Calling?
    requires w.pass == p && w.slot == |pc.outs|
    ensures OrderedBefore(log, w) <==> LostByThisCall(log, w) || LostByEarlierPass(log, w)
  {
    if OrderedBefore(log, w) {
      var v: nat :| v < |log.cmms| && SameOperation(log.cmms[v], w);
      RepeatSteps.EarlierIsLost(rows, log, p, pc, v);
      assert Traced(rows, log, p, pc, v);
    }
  }

  /** The order that an accepted attempt of a calling pass places. */
  function NewOrder(d: Slice, p: nat, pc: ActionPc): CmmsWrite
    requires pc.Calling? && |pc.outs| < |pc.ops|
  {
    CmmsWrite(p, |pc.outs|, pc.ops[|pc.outs|], |d.approvals|)
  }

  predicate Attempts(c: Case, e: Event, p: nat) {
    && e.ActionStep? && e.pass == p && e.action.Attempt? && IsOrder(e.action.reply)
    && p in c.action.passes && c.action.passes[p].Calling? && |c.action.passes[p].outs| < |c.action.passes[p].ops|
  }

  lemma PlacesNewOrder(env: Env, c: Case, e: Event, p: nat, after: Case)
    requires Attempts(c, e, p) && Next(env, c, e) == Some(after)
    ensures after.log.cmms == c.log.cmms + [NewOrder(c.db, p, c.action.passes[p])]
  {
  }

  lemma AttemptRepeatsIff(env: Env, c: Case, e: Event, p: nat, after: Case)
    requires Executions(c) && Repeats(c) && Attempts(c, e, p) && Next(env, c, e) == Some(after)
    ensures RepeatsIff(c, p, after)
  {
    PlacesNewOrder(env, c, e, p, after);
    OrderedBeforeIff(c.db.attempts, c.log, p, c.action.passes[p], NewOrder(c.db, p, c.action.passes[p]));
  }

  /** The step places one more order, which is a second one for its operation exactly after a loss. */
  ghost predicate RepeatsIff(c: Case, p: nat, after: Case)
    requires p in c.action.passes && c.action.passes[p].Calling?
    requires |c.action.passes[p].outs| < |c.action.passes[p].ops|
  {
    var w := NewOrder(c.db, p, c.action.passes[p]);
    && after.log.cmms == c.log.cmms + [w]
    && (OrderedBefore(c.log, w) <==> LostByThisCall(c.log, w) || LostByEarlierPass(c.log, w))
  }

  /** In every run: an attempt that the CMMS accepts places a second order for its operation if and only if an
      order for it was lost before, to an earlier attempt of the same call or to an earlier pass. */
  lemma SecondOrderIff(env: Env, events: seq<SysEvent>, states: seq<Sys>, i: nat, id: Id, p: nat)
    requires Reached(env, events, states, i, id) && i + 1 < |states|
    requires events[i].On? && events[i].id == id && Attempts(states[i][id], events[i].event, p)
    ensures id in states[i + 1] && RepeatsIff(states[i][id], p, states[i + 1][id])
  {
    RunKeeps(env, events, states, i, id);
    StepGrows(env, events, states, i, id);
    OnlyOneIncident(env, states[i], events[i], states[i + 1], id);
    AttemptRepeatsIff(env, states[i][id], events[i].event, p, states[i + 1][id]);
  }

  // ---------------------------------------------------------------- in every state

  /** Two orders for one operation; when asked for, with no decision recorded between them. */
  predicate Twice(log: Log, a: nat, b: nat, oneApproval: bool)
    requires a < |log.cmms| && b < |log.cmms|
  {
    && SameOperation(log.cmms[a], log.cmms[b])
    && (oneApproval ==> log.cmms[a].approvalsSeen == log.cmms[b].approvalsSeen)
  }

  ghost predicate NothingTwice(log: Log, oneApproval: bool) {
    forall a: nat, b: nat | a < b < |log.cmms| :: !Twice(log, a, b, oneApproval)
  }

  ghost predicate NoLossRepeated(log: Log, oneApproval: bool) {
    forall a: nat, b: nat | a < b < |log.cmms| && a in log.lost :: !Twice(log, a, b, oneApproval)
  }

  lemma RepeatsAreOfLosses(c: Case)
    requires Repeats(c)
    ensures RepeatsFollowLosses(c.log)
  {
    if p :| p in c.action.passes {
      assert AllTraced(c.db.attempts, c.log, p, c.action.passes[p]);
    } else {
      assert c.action.passes == map[];
    }
  }

  /** In every state of every run no operation has been ordered twice, be it for one approval or at all, if and
      only if none has been ordered again after losing an order. */
  lemma OrderedOnceIff(env: Env, events: seq<SysEvent>, states: seq<Sys>, i: nat, id: Id, oneApproval: bool)
    requires Reached(env, events, states, i, id)
    ensures NothingTwice(states[i][id].log, oneApproval) <==> NoLossRepeated(states[i][id].log, oneApproval)
  {
    RunKeeps(env, events, states, i, id);
    RepeatsAreOfLosses(states[i][id]);
  }

  /** As long as no order is lost, no position of a recommendation is ordered twice, whatever is redelivered,
      retried or started again. */
  lemma NothingLostNothingRepeated(env: Env, events: seq<SysEvent>, states: seq<Sys>, i: nat, id: Id, a: nat, b: nat)
    requires Reached(env, events, states, i, id) && states[i][id].log.lost == [] && a < b < |states[i][id].log.cmms|
    ensures states[i][id].log.cmms[a].slot != states[i][id].log.cmms[b].slot
  {
    RunKeeps(env, events, states, i, id);
    RepeatsAreOfLosses(states[i][id]);
    DistinctSlots(states[i][id].log, a, b);
  }

  lemma DistinctSlots(log: Log, a: nat, b: nat)
    requires RepeatsFollowLosses(log) && log.lost == [] && a < b < |log.cmms|
    ensures log.cmms[a].slot != log.cmms[b].slot
  {
    assert a !in log.lost;
  }

  // ---------------------------------------------------------------- what the guard can know

  lemma AllLostIfNoneSucceeded(rows: seq<AttemptRow>, log: Log, p: nat, pc: ActionPc, w: nat)
    requires AllTraced(rows, log, p, pc) && pc.Guarding? && w < |log.cmms|
    requires forall i :: 0 <= i < |rows| ==> rows[i].outcome != Succeeded
    ensures w in log.lost
  {
    assert Traced(rows, log, p, pc, w);
  }

  lemma AllLost(c: Case, p: nat)
    requires Repeats(c) && p in c.action.passes && c.action.passes[p].Guarding? && !Executed(c.db)
    ensures forall w: nat :: w < |c.log.cmms| ==> w in c.log.lost
    ensures c.log.cmms != [] <==> c.log.lost != []
  {
    assert AllTraced(c.db.attempts, c.log, p, c.action.passes[p]);
    forall w: nat | w < |c.log.cmms| ensures w in c.log.lost {
      AllLostIfNoneSucceeded(c.db.attempts, c.log, p, c.action.passes[p], w);
    }
    if c.log.cmms != [] { assert 0 in c.log.lost; }
    if c.log.lost != [] { assert c.log.lost[0] in c.log.lost; }
  }

  /** When the idempotency guard finds no succeeded row, every order that exists was lost: it lets a pass begin
      over an existing order if and only if a loss happened. */
  lemma GuardMissesOnlyLosses(env: Env, events: seq<SysEvent>, states: seq<Sys>, i: nat, id: Id, p: nat)
    requires Reached(env, events, states, i, id)
    requires p in states[i][id].action.passes && states[i][id].action.passes[p].Guarding? && !Executed(states[i][id].db)
    ensures forall w: nat :: w < |states[i][id].log.cmms| ==> w in states[i][id].log.lost
    ensures states[i][id].log.cmms != [] <==> states[i][id].log.lost != []
  {
    RunKeeps(env, events, states, i, id);
    AllLost(states[i][id], p);
  }
}
