/** The Action Agent alone touches the attempt table and its own passes. */
module ActionFrame {
  import opened Wrappers
  import opened Incidents
  import opened Protocol

  ghost predicate SameExecution(c: Case, after: Case) {
    && after.db.attempts == c.db.attempts
    && after.log.(decided := c.log.decided) == c.log
    && after.action == c.action
    && after.next >= c.next
  }

  lemma DiagnoseLeaves(d: Slice, pc: DiagnosisPc, event: DiagnosisEvent, x: Effect<DiagnosisPc>)
    requires Diagnose(d, pc, event) == Some(x)
    ensures x.db.attempts == d.attempts && x.db.audit == d.audit && x.db.learned == d.learned
  {
  }

  lemma OrchestrateLeaves(env: Env, d: Slice, pc: StagePc, event: StageEvent, x: Effect<StagePc>)
    requires Orchestrate(env, d, pc, event) == Some(x)
    ensures x.db.attempts == d.attempts && x.db.audit == d.audit && x.db.learned == d.learned
  {
  }

  lemma ServeLeaves(d: Slice, log: Log, pc: CallPc, event: CallEvent, x: CallEffect)
    requires Serve(d, log, pc, event) == Some(x)
    ensures x.db.attempts == d.attempts && x.db.learned == d.learned && x.log.(decided := log.decided) == log
    ensures x.db.audit == d.audit || exists a: AuditRow :: a.kind != LoopClosed && x.db.audit == d.audit + [a]
  {
  }

  lemma PollLeaves(d: Slice, poll: PollPc, event: PollEvent, x: PollEffect)
    requires Poll(d, poll, event) == Some(x)
    ensures x.db.attempts == d.attempts
  {
  }

  lemma OthersLeave(env: Env, c: Case, e: Event, after: Case)
    requires Next(env, c, e) == Some(after) && !e.ActionStart? && !e.ActionStep? && !e.Crash?
    ensures SameExecution(c, after)
  {
    match e
    case DiagnosisStep(p, d) => DiagnoseLeaves(c.db, c.diagnosis.passes[p], d, Diagnose(c.db, c.diagnosis.passes[p], d).value);
    case StageStep(p, s) => OrchestrateLeaves(env, c.db, c.stage.passes[p], s, Orchestrate(env, c.db, c.stage.passes[p], s).value);
    case CallStep(k, a) => ServeLeaves(c.db, c.log, c.calls[k], a, Serve(c.db, c.log, c.calls[k], a).value);
    case Polling(q) => PollLeaves(c.db, c.poll, q, Poll(c.db, c.poll, q).value);
    case _ =>
  }
}

/** Every event keeps the attempt table truthful and its successes within one pass. */
module ExecutionSteps {
  import ActionFrame
  import opened Wrappers
  import opened Mapping
  import opened Incidents
  import opened Protocol
  import opened Invariant

  function OutcomeRow(operation: CmmsOperation, result: OpResult): AttemptRow {
    if result.Done? then AttemptRow(operation, Succeeded, result.reference) else AttemptRow(operation, Failed, "")
  }

  lemma PassRowsExtend(ops: seq<CmmsOperation>, outs: seq<OpResult>, result: OpResult)
    requires |outs| < |ops|
    ensures PassRows(ops, outs + [result])
      == PassRows(ops, outs) + [AttemptRow(ops[|outs|], Pending, ""), OutcomeRow(ops[|outs|], result)]
  {
    assert (outs + [result])[..|outs|] == outs;
  }

  lemma Starts(rows: seq<AttemptRow>, passes: seq<nat>, p: nat, ops: seq<CmmsOperation>)
    requires |passes| == |rows| && ops != [] && forall i :: 0 <= i < |rows| ==> rows[i].outcome != Succeeded
    ensures PassReady(rows, passes, p, Opening(ops, [], |rows|))
  {
  }

  lemma Opens(rows: seq<AttemptRow>, passes: seq<nat>, next: nat, p: nat, pc: ActionPc)
    requires WellAttempted(rows, passes, next) && pc.Opening? && PassReady(rows, passes, p, pc)
    requires |pc.outs| < |pc.ops| && p < next
    ensures
      var row := AttemptRow(pc.ops[|pc.outs|], Pending, "");
      && WellAttempted(rows + [row], passes + [p], next)
      && PassReady(rows + [row], passes + [p], p, Calling(pc.ops, pc.outs, pc.start, 1))
  {
    var more, whose := rows + [AttemptRow(pc.ops[|pc.outs|], Pending, "")], passes + [p];
    forall i | 0 <= i < |more| ensures Preceded(more, whose, i) {
      if i < |rows| { assert Preceded(rows, passes, i); }
    }
  }

  lemma Records(rows: seq<AttemptRow>, passes: seq<nat>, next: nat, p: nat, pc: ActionPc)
    requires WellAttempted(rows, passes, next) && pc.Recording? && PassReady(rows, passes, p, pc) && p < next
    ensures
      var row := OutcomeRow(pc.ops[|pc.outs|], pc.result);
      && WellAttempted(rows + [row], passes + [p], next)
      && PassReady(rows + [row], passes + [p], p, Opening(pc.ops, pc.outs + [pc.result], pc.start))
  {
    var row := OutcomeRow(pc.ops[|pc.outs|], pc.result);
    var more, whose := rows + [row], passes + [p];
    assert rows[|rows| - 1] == rows[pc.start..][|rows| - pc.start - 1] == AttemptRow(pc.ops[|pc.outs|], Pending, "");
    forall i | 0 <= i < |more| ensures Preceded(more, whose, i) {
      if i < |rows| { assert Preceded(rows, passes, i); }
    }
    PassRowsExtend(pc.ops, pc.outs, pc.result);
    assert more[pc.start..] == rows[pc.start..] + [row];
  }

  lemma EndedCarries(rows: seq<AttemptRow>, passes: seq<nat>, row: AttemptRow, p: nat, ended: seq<EndedPass>)
    requires forall k :: 0 <= k < |ended| ==> EndedWell(rows, passes, ended[k])
    requires |rows| == |passes|
    ensures forall k :: 0 <= k < |ended| ==> EndedWell(rows + [row], passes + [p], ended[k])
  {
    forall k | 0 <= k < |ended| ensures EndedWell(rows + [row], passes + [p], ended[k]) {
      var e := ended[k];
      assert EndedWell(rows, passes, e);
      assert (rows + [row])[e.start..e.stop] == rows[e.start..e.stop];
    }
  }

  /** A pass that may take its next step on this attempt table. */
  ghost predicate Ready(d: Slice, log: Log, next: nat, p: nat, pc: ActionPc) {
    && WellAttempted(d.attempts, log.attemptPass, next) && p < next
    && PassReady(d.attempts, log.attemptPass, p, pc)
    && forall k :: 0 <= k < |log.ended| ==> EndedWell(d.attempts, log.attemptPass, log.ended[k])
  }

  lemma OpenAdvances(env: Env, d: Slice, log: Log, next: nat, p: nat, pc: ActionPc, x: ActionEffect)
    requires Ready(d, log, next, p, pc) && pc.Opening? && Act(env, d, log, p, pc, OpenAttempt) == Some(x)
    ensures x.rest.Some? && Ready(x.db, x.log, next, p, x.rest.value)
  {
    Opens(d.attempts, log.attemptPass, next, p, pc);
    EndedCarries(d.attempts, log.attemptPass, AttemptRow(pc.ops[|pc.outs|], Pending, ""), p, log.ended);
  }

  lemma RecordAdvances(env: Env, d: Slice, log: Log, next: nat, p: nat, pc: ActionPc, x: ActionEffect)
    requires Ready(d, log, next, p, pc) && pc.Recording? && Act(env, d, log, p, pc, RecordOutcome) == Some(x)
    ensures x.rest.Some? && Ready(x.db, x.log, next, p, x.rest.value)
  {
    Records(d.attempts, log.attemptPass, next, p, pc);
    EndedCarries(d.attempts, log.attemptPass, OutcomeRow(pc.ops[|pc.outs|], pc.result), p, log.ended);
  }

  lemma SaveAdvances(env: Env, d: Slice, log: Log, next: nat, p: nat, pc: ActionPc, x: ActionEffect)
    requires Ready(d, log, next, p, pc) && Act(env, d, log, p, pc, SaveResult) == Some(x)
    ensures x.rest.None? && Ready(x.db, x.log, next, p, ViewReading)
  {
    if pc.Opening? {
      assert d.attempts[pc.start..|d.attempts|] == d.attempts[pc.start..];
    }
  }

  /** A reply moves the pass on without touching the attempt table. */
  lemma AttemptAdvances(env: Env, d: Slice, log: Log, next: nat, p: nat, pc: ActionPc, reply: Reply, x: ActionEffect)
    requires Ready(d, log, next, p, pc) && Act(env, d, log, p, pc, Attempt(reply)) == Some(x)
    ensures x.rest.Some? && Ready(x.db, x.log, next, p, x.rest.value)
  {
  }

  lemma OtherAdvances(env: Env, d: Slice, log: Log, next: nat, p: nat, pc: ActionPc, event: ActionEvent, x: ActionEffect)
    requires Ready(d, log, next, p, pc) && Act(env, d, log, p, pc, event) == Some(x)
    requires event.ReadView? || event.CheckExecuted? || event.DropAction?
    ensures Ready(x.db, x.log, next, p, if x.rest.Some? then x.rest.value else ViewReading)
  {
    if event.CheckExecuted? && x.rest.value.Opening? {
      Starts(d.attempts, log.attemptPass, p, x.rest.value.ops);
    }
  }

  lemma ActAdvances(env: Env, d: Slice, log: Log, next: nat, p: nat, pc: ActionPc, event: ActionEvent, x: ActionEffect)
    requires Ready(d, log, next, p, pc) && Act(env, d, log, p, pc, event) == Some(x)
    ensures Ready(x.db, x.log, next, p, if x.rest.Some? then x.rest.value else ViewReading)
  {
    match event
    case OpenAttempt => OpenAdvances(env, d, log, next, p, pc, x);
    case RecordOutcome => RecordAdvances(env, d, log, next, p, pc, x);
    case SaveResult => SaveAdvances(env, d, log, next, p, pc, x);
    case Attempt(reply) => AttemptAdvances(env, d, log, next, p, pc, reply, x);
    case _ => OtherAdvances(env, d, log, next, p, pc, event, x);
  }

  lemma AfterAction(env: Env, c: Case, p: nat, event: ActionEvent, x: ActionEffect, after: Case)
    requires Exclusive(c) && Executions(c) && p in c.action.passes
    requires Act(env, c.db, c.log, p, c.action.passes[p], event) == Some(x)
    requires after == c.(db := x.db, log := x.log, action := Continue(c.action, p, x.rest))
    ensures Executions(after)
  {
    ActAdvances(env, c.db, c.log, c.next, p, c.action.passes[p], event, x);
  }

  /** An event that leaves the attempt table and the passes of the Action Agent alone. */
  lemma AfterOthers(c: Case, after: Case)
    requires Executions(c) && after.db.attempts == c.db.attempts && after.log.attemptPass == c.log.attemptPass
    requires after.log.ended == c.log.ended && after.next >= c.next
    requires forall p :: p in after.action.passes ==>
      after.action.passes[p] == ViewReading || (p in c.action.passes && after.action.passes[p] == c.action.passes[p])
    ensures Executions(after)
  {
  }

  lemma ExecutionsKept(env: Env, c: Case, e: Event, after: Case)
    requires Exclusive(c) && Executions(c) && Next(env, c, e) == Some(after)
    ensures Executions(after)
  {
    match e
    case ActionStart => AfterOthers(c, after);
    case ActionStep(p, a) => AfterAction(env, c, p, a, Act(env, c.db, c.log, p, c.action.passes[p], a).value, after);
    case Crash => AfterOthers(c, after);
    case _ =>
      ActionFrame.OthersLeave(env, c, e, after);
      AfterOthers(c, after);
  }
}

/** Every event keeps the orders of the CMMS accounted for. */
module OrderSteps {
  import ActionFrame
  import opened Wrappers
  import opened Incidents
  import opened Protocol
  import opened Invariant

  /** A subsequence stays one when an element is left out at the end of either side. */
  lemma {:induction false} LeaveOut<T>(a: seq<T>, b: seq<T>, x: T)
    requires IsSubsequence(a, b)
    ensures IsSubsequence(a, b + [x])
    ensures a != [] ==> IsSubsequence(a[..|a| - 1], b)
    decreases |b|
  {
    assert (b + [x])[..|b|] == b;
    if a != [] {
      var n, front := |b| - 1, a[..|a| - 1];
      if a[|a| - 1] != b[n] { LeaveOut(a, b[..n], b[n]); }
      LeaveOut(front, b[..n], b[n]);
      assert b[..n] + [b[n]] == b;
    }
  }

  lemma Skip<T>(a: seq<T>, b: seq<T>, x: T)
    requires IsSubsequence(a, b)
    ensures IsSubsequence(a, b + [x])
  {
    LeaveOut(a, b, x);
  }

  lemma DropLast<T>(a: seq<T>, x: T, b: seq<T>)
    requires IsSubsequence(a + [x], b)
    ensures IsSubsequence(a, b)
  {
    LeaveOut(a + [x], b, x);
    assert (a + [x])[..|a|] == a;
  }

  lemma Both<T>(a: seq<T>, b: seq<T>, x: T)
    requires IsSubsequence(a, b)
    ensures IsSubsequence(a + [x], b + [x])
  {
    assert (a + [x])[..|a|] == a && (b + [x])[..|b|] == b;
  }

  /** Nothing is left out when the lengths agree. */
  lemma {:induction false} FullSubsequence<T>(a: seq<T>, b: seq<T>)
    requires IsSubsequence(a, b)
    ensures |a| <= |b|
    ensures |a| == |b| ==> a == b
  {
    if a != [] {
      var n := |b| - 1;
      if a[|a| - 1] == b[n] { FullSubsequence(a[..|a| - 1], b[..n]); } else { FullSubsequence(a, b[..n]); }
    }
  }

  lemma OrdersAppend(cmms: seq<CmmsWrite>, w: CmmsWrite)
    ensures Orders(cmms + [w]) == Orders(cmms) + [(w.pass, w.operation)]
  {
    assert (cmms + [w])[..|cmms|] == cmms;
  }

  lemma RowAppend(rows: seq<AttemptRow>, passes: seq<nat>, row: AttemptRow, p: nat, perRow: nat)
    requires |passes| == |rows|
    ensures Successes(rows + [row], passes + [p])
      == Successes(rows, passes) + if row.outcome == Succeeded then [(p, row.operation)] else []
    ensures Budget(rows + [row], perRow) == Budget(rows, perRow) + if row.outcome == Pending then perRow else 0
  {
    assert (rows + [row])[..|rows|] == rows && (passes + [p])[..|passes|] == passes;
  }

  lemma AttemptAccounted(env: Env, d: Slice, log: Log, p: nat, pc: ActionPc, reply: Reply, x: ActionEffect)
    requires Accounted(env, d.attempts, log, p, pc) && pc.Calling? && Act(env, d, log, p, pc, Attempt(reply)) == Some(x)
    ensures x.rest.Some? && Accounted(env, x.db.attempts, x.log, p, x.rest.value)
  {
    var write := CmmsWrite(p, |pc.outs|, pc.ops[|pc.outs|], |d.approvals|);
    var recorded := Successes(d.attempts, log.attemptPass);
    assert recorded + [] == recorded;
    OrdersAppend(log.cmms, write);
    if reply.Ok? {
      Both(recorded, Orders(log.cmms), (p, write.operation));
    } else if reply.Unavailable? && reply.accepted {
      Skip(recorded, Orders(log.cmms), (p, write.operation));
    }
  }

  lemma OpenAccounted(env: Env, d: Slice, log: Log, p: nat, pc: ActionPc, x: ActionEffect)
    requires Accounted(env, d.attempts, log, p, pc) && pc.Opening? && Act(env, d, log, p, pc, OpenAttempt) == Some(x)
    ensures x.rest.Some? && Accounted(env, x.db.attempts, x.log, p, x.rest.value)
  {
    RowAppend(d.attempts, log.attemptPass, AttemptRow(pc.ops[|pc.outs|], Pending, ""), p, MaxAttempts(env));
    assert Successes(d.attempts, log.attemptPass) + [] == Successes(x.db.attempts, x.log.attemptPass) + [];
  }

  /** The recorded row takes over what the pass had in hand. */
  lemma RowAccounted(env: Env, rows: seq<AttemptRow>, log: Log, p: nat, pc: ActionPc, row: AttemptRow, rest: ActionPc)
    requires Accounted(env, rows, log, p, pc) && pc.Recording? && rest.Opening?
    requires row.outcome != Pending
    requires Unrecorded(p, pc) == if row.outcome == Succeeded then [(p, row.operation)] else []
    ensures Accounted(env, rows + [row], log.(attemptPass := log.attemptPass + [p]), p, rest)
  {
    RowAppend(rows, log.attemptPass, row, p, MaxAttempts(env));
    var before := Successes(rows, log.attemptPass);
    var after := Successes(rows + [row], log.attemptPass + [p]);
    assert after + [] == after == before + Unrecorded(p, pc);
  }

  lemma RecordAccounted(env: Env, d: Slice, log: Log, p: nat, pc: ActionPc, x: ActionEffect)
    requires Accounted(env, d.attempts, log, p, pc) && pc.Recording? && Act(env, d, log, p, pc, RecordOutcome) == Some(x)
    ensures x.rest.Some? && Accounted(env, x.db.attempts, x.log, p, x.rest.value)
  {
    var operation := pc.ops[|pc.outs|];
    var row := if pc.result.Done? then AttemptRow(operation, Succeeded, pc.result.reference) else AttemptRow(operation, Failed, "");
    RowAccounted(env, d.attempts, log, p, pc, row, x.rest.value);
  }

  /** A pass that is dropped with an answer in hand loses it. */
  lemma DropAccounted(env: Env, rows: seq<AttemptRow>, log: Log, p: nat, pc: ActionPc)
    requires Accounted(env, rows, log, p, pc) && (pc.Recording? ==> |pc.outs| < |pc.ops|)
    ensures Accounted(env, rows, log.(lost := log.lost + LostWith(log, pc)), p, ViewReading)
  {
    var recorded := Successes(rows, log.attemptPass);
    assert recorded + [] == recorded;
    if Holding(pc) {
      DropLast(recorded, (p, pc.ops[|pc.outs|]), Orders(log.cmms));
    }
  }

  lemma QuietShape(env: Env, d: Slice, log: Log, p: nat, pc: ActionPc, event: ActionEvent, x: ActionEffect)
    requires Act(env, d, log, p, pc, event) == Some(x)
    requires event.ReadView? || event.CheckExecuted? || event.SaveResult?
    ensures x.db.attempts == d.attempts && x.log.(ended := log.ended) == log
    ensures !pc.Calling? && !pc.Recording?
    ensures x.rest.Some? ==> !x.rest.value.Calling? && !x.rest.value.Recording?
  {
  }

  lemma SameAccount(env: Env, rows: seq<AttemptRow>, log: Log, after: Log, p: nat, pc: ActionPc, rest: ActionPc)
    requires Accounted(env, rows, log, p, pc) && after.(ended := log.ended) == log
    requires !pc.Calling? && !pc.Recording? && !rest.Calling? && !rest.Recording?
    ensures Accounted(env, rows, after, p, rest)
  {
  }

  lemma QuietAccounted(env: Env, d: Slice, log: Log, p: nat, pc: ActionPc, event: ActionEvent, x: ActionEffect)
    requires Accounted(env, d.attempts, log, p, pc) && Act(env, d, log, p, pc, event) == Some(x)
    requires event.ReadView? || event.CheckExecuted? || event.SaveResult?
    ensures Accounted(env, x.db.attempts, x.log, p, if x.rest.Some? then x.rest.value else ViewReading)
  {
    QuietShape(env, d, log, p, pc, event, x);
    SameAccount(env, d.attempts, log, x.log, p, pc, if x.rest.Some? then x.rest.value else ViewReading);
  }

  lemma ActAccounted(env: Env, d: Slice, log: Log, p: nat, pc: ActionPc, event: ActionEvent, x: ActionEffect)
    requires Accounted(env, d.attempts, log, p, pc) && (pc.Recording? ==> |pc.outs| < |pc.ops|)
    requires Act(env, d, log, p, pc, event) == Some(x)
    ensures Accounted(env, x.db.attempts, x.log, p, if x.rest.Some? then x.rest.value else ViewReading)
  {
    match event
    case Attempt(reply) => AttemptAccounted(env, d, log, p, pc, reply, x);
    case OpenAttempt => OpenAccounted(env, d, log, p, pc, x);
    case RecordOutcome => RecordAccounted(env, d, log, p, pc, x);
    case DropAction => DropAccounted(env, d.attempts, log, p, pc);
    case _ => QuietAccounted(env, d, log, p, pc, event, x);
  }

  lemma AfterAction(env: Env, c: Case, p: nat, event: ActionEvent, x: ActionEffect, after: Case)
    requires Exclusive(c) && Executions(c) && Ordered(env, c) && p in c.action.passes
    requires Act(env, c.db, c.log, p, c.action.passes[p], event) == Some(x)
    requires after == c.(db := x.db, log := x.log, action := Continue(c.action, p, x.rest))
    ensures Ordered(env, after)
  {
    assert PassReady(c.db.attempts, c.log.attemptPass, p, c.action.passes[p]);
    ActAccounted(env, c.db, c.log, p, c.action.passes[p], event, x);
    assert x.rest.Some? ==> p in after.action.passes;
  }

  lemma AfterCrash(env: Env, c: Case)
    requires Exclusive(c) && Executions(c) && Ordered(env, c)
    ensures Ordered(env, Crashed(c))
  {
    if p :| p in c.action.passes {
      assert PassReady(c.db.attempts, c.log.attemptPass, p, c.action.passes[p]);
      DropAccounted(env, c.db.attempts, c.log, p, c.action.passes[p]);
      assert Crashed(c).log == c.log.(lost := c.log.lost + LostWith(c.log, c.action.passes[p]));
    }
  }

  lemma AfterOthers(env: Env, c: Case, after: Case)
    requires Ordered(env, c) && ActionFrame.SameExecution(c, after)
    ensures Ordered(env, after)
  {
  }

  lemma AfterActionStart(env: Env, c: Case, after: Case)
    requires Exclusive(c) && Ordered(env, c) && Next(env, c, ActionStart) == Some(after)
    ensures Ordered(env, after)
  {
    assert c.action.passes == map[];
  }

  lemma OrderedKept(env: Env, c: Case, e: Event, after: Case)
    requires Exclusive(c) && Executions(c) && Ordered(env, c) && Next(env, c, e) == Some(after)
    ensures Ordered(env, after)
  {
    match e
    case ActionStart => AfterActionStart(env, c, after);
    case ActionStep(p, a) => AfterAction(env, c, p, a, Act(env, c.db, c.log, p, c.action.passes[p], a).value, after);
    case Crash => AfterCrash(env, c);
    case _ =>
      ActionFrame.OthersLeave(env, c, e, after);
      AfterOthers(env, c, after);
  }
}
