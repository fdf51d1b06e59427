/** Every event keeps track of what became of each external order, so that only lost ones are ever repeated. */
module RepeatSteps {
  import ActionFrame
  import opened Wrappers
  import opened Incidents
  import opened Protocol
  import opened Invariant

  lemma SucceededStays(rows: seq<AttemptRow>, passes: seq<nat>, row: AttemptRow, p: nat, q: nat)
    requires |passes| == |rows|
    ensures SucceededBy(rows, passes, q) ==> SucceededBy(rows + [row], passes + [p], q)
    ensures row.outcome == Succeeded ==> SucceededBy(rows + [row], passes + [p], p)
  {
    if SucceededBy(rows, passes, q) {
      var i :| 0 <= i < |rows| && rows[i].outcome == Succeeded && passes[i] == q;
      assert (rows + [row])[i] == rows[i] && (passes + [p])[i] == passes[i];
    }
    assert (rows + [row])[|rows|] == row && (passes + [p])[|rows|] == p;
  }

  /** Once a pass is executing, only its own rows can have succeeded. */
  lemma OnlyOwnSuccess(rows: seq<AttemptRow>, passes: seq<nat>, p: nat, pc: ActionPc, q: nat)
    requires PassReady(rows, passes, p, pc) && Running(pc) && SucceededBy(rows, passes, q)
    ensures q == p
  {
  }

  /** Before the next order of a calling pass: every earlier one for its operation is lost. */
  lemma EarlierIsLost(rows: seq<AttemptRow>, log: Log, p: nat, pc: ActionPc, w: nat)
    requires AllTraced(rows, log, p, pc) && PassReady(rows, log.attemptPass, p, pc) && pc.Calling?
    requires w < |log.cmms| && log.cmms[w].slot == |pc.outs|
    ensures w in log.lost
  {
    assert Traced(rows, log, p, pc, w);
    if SucceededBy(rows, log.attemptPass, log.cmms[w].pass) {
      OnlyOwnSuccess(rows, log.attemptPass, p, pc, log.cmms[w].pass);
    }
  }

  /** The log after one more accepted order, lost or in hand. */
  lemma AcceptTraced(rows: seq<AttemptRow>, log: Log, p: nat, pc: ActionPc, w: CmmsWrite, after: Log, rest: ActionPc)
    requires AllTraced(rows, log, p, pc) && PassReady(rows, log.attemptPass, p, pc) && pc.Calling?
    requires w.pass == p && w.slot == |pc.outs|
    requires after == log.(cmms := log.cmms + [w], lost := after.lost)
    requires rest.Calling? || rest.Recording?
    requires rest.outs == pc.outs
    requires if Holding(rest) then after.lost == log.lost else after.lost == log.lost + [|log.cmms|]
    ensures AllTraced(rows, after, p, rest)
  {
    var n := |log.cmms|;
    forall v: nat | v < n + 1 ensures Traced(rows, after, p, rest, v) && after.cmms[v].pass <= p {
      if v < n {
        assert after.cmms[v] == log.cmms[v];
        assert Traced(rows, log, p, pc, v);
      }
    }
    forall a: nat, b: nat | a < b < n + 1 && after.cmms[a].slot == after.cmms[b].slot ensures a in after.lost {
      assert after.cmms[a] == log.cmms[a];
      if b == n { EarlierIsLost(rows, log, p, pc, a); } else { assert after.cmms[b] == log.cmms[b]; }
    }
  }

  /** A step that leaves the orders alone and no answer in hand. */
  lemma WaitTraced(rows: seq<AttemptRow>, log: Log, p: nat, pc: ActionPc, rest: ActionPc)
    requires AllTraced(rows, log, p, pc) && !Holding(pc) && !Holding(rest)
    requires Running(pc) ==> Running(rest) && rest.outs == pc.outs
    ensures AllTraced(rows, log, p, rest)
  {
    forall w: nat | w < |log.cmms| ensures Traced(rows, log, p, rest, w) {
      assert Traced(rows, log, p, pc, w);
    }
  }

  lemma AttemptTraced(env: Env, d: Slice, log: Log, p: nat, pc: ActionPc, reply: Reply, x: ActionEffect)
    requires AllTraced(d.attempts, log, p, pc) && PassReady(d.attempts, log.attemptPass, p, pc) && pc.Calling?
    requires Act(env, d, log, p, pc, Attempt(reply)) == Some(x)
    ensures x.rest.Some? && AllTraced(x.db.attempts, x.log, p, x.rest.value)
  {
    var w := CmmsWrite(p, |pc.outs|, pc.ops[|pc.outs|], |d.approvals|);
    if reply.Ok? || (reply.Unavailable? && reply.accepted) {
      AcceptTraced(d.attempts, log, p, pc, w, x.log, x.rest.value);
    } else {
      WaitTraced(d.attempts, log, p, pc, x.rest.value);
    }
  }

  /** A pending row, or the row of an outcome: a succeeded one stands for the order that was in hand. */
  lemma RowTraced(rows: seq<AttemptRow>, log: Log, p: nat, pc: ActionPc, row: AttemptRow, rest: ActionPc)
    requires AllTraced(rows, log, p, pc) && Running(pc) && Running(rest) && !Holding(rest)
    requires if Holding(pc) then row.outcome == Succeeded && |rest.outs| == |pc.outs| + 1 else |rest.outs| >= |pc.outs|
    ensures AllTraced(rows + [row], log.(attemptPass := log.attemptPass + [p]), p, rest)
  {
    var after := log.(attemptPass := log.attemptPass + [p]);
    forall w: nat | w < |log.cmms| ensures Traced(rows + [row], after, p, rest, w) {
      assert Traced(rows, log, p, pc, w);
      SucceededStays(rows, log.attemptPass, row, p, log.cmms[w].pass);
    }
  }

  /** A pass that ends or is dropped loses what it holds; nothing else changes. */
  lemma EndTraced(rows: seq<AttemptRow>, log: Log, p: nat, pc: ActionPc, after: Log, next: nat)
    requires AllTraced(rows, log, p, pc)
    requires after == log.(lost := log.lost + LostWith(log, pc), ended := after.ended)
    requires forall w :: 0 <= w < |log.cmms| ==> log.cmms[w].pass < next
    ensures AllTraced(rows, after, next, ViewReading)
  {
    forall w: nat | w < |log.cmms| ensures Traced(rows, after, next, ViewReading, w) {
      assert Traced(rows, log, p, pc, w);
    }
  }

  lemma OpenTraced(env: Env, d: Slice, log: Log, p: nat, pc: ActionPc, x: ActionEffect)
    requires AllTraced(d.attempts, log, p, pc) && pc.Opening? && Act(env, d, log, p, pc, OpenAttempt) == Some(x)
    ensures x.rest.Some? && AllTraced(x.db.attempts, x.log, p, x.rest.value)
  {
    RowTraced(d.attempts, log, p, pc, AttemptRow(pc.ops[|pc.outs|], Pending, ""), x.rest.value);
  }

  lemma RecordTraced(env: Env, d: Slice, log: Log, p: nat, pc: ActionPc, x: ActionEffect)
    requires AllTraced(d.attempts, log, p, pc) && pc.Recording? && Act(env, d, log, p, pc, RecordOutcome) == Some(x)
    ensures x.rest.Some? && AllTraced(x.db.attempts, x.log, p, x.rest.value)
  {
    RowTraced(d.attempts, log, p, pc, x.db.attempts[|d.attempts|], x.rest.value);
  }

  /** The steps that go on without an order or a row. */
  lemma ReadTraced(env: Env, d: Slice, log: Log, p: nat, pc: ActionPc, event: ActionEvent, x: ActionEffect)
    requires AllTraced(d.attempts, log, p, pc) && Act(env, d, log, p, pc, event) == Some(x)
    requires (event.ReadView? || event.CheckExecuted?) && x.rest.Some?
    ensures AllTraced(x.db.attempts, x.log, p, x.rest.value)
  {
    WaitTraced(d.attempts, log, p, pc, x.rest.value);
  }

  lemma GoesOn(env: Env, d: Slice, log: Log, p: nat, pc: ActionPc, event: ActionEvent, x: ActionEffect)
    requires AllTraced(d.attempts, log, p, pc) && PassReady(d.attempts, log.attemptPass, p, pc)
    requires Act(env, d, log, p, pc, event) == Some(x) && x.rest.Some?
    ensures AllTraced(x.db.attempts, x.log, p, x.rest.value)
  {
    match event
    case Attempt(reply) => AttemptTraced(env, d, log, p, pc, reply, x);
    case OpenAttempt => OpenTraced(env, d, log, p, pc, x);
    case RecordOutcome => RecordTraced(env, d, log, p, pc, x);
    case _ => ReadTraced(env, d, log, p, pc, event, x);
  }

  lemma Ends(env: Env, d: Slice, log: Log, p: nat, pc: ActionPc, event: ActionEvent, x: ActionEffect, next: nat)
    requires AllTraced(d.attempts, log, p, pc) && Act(env, d, log, p, pc, event) == Some(x) && x.rest == None
    requires forall w :: 0 <= w < |log.cmms| ==> log.cmms[w].pass < next
    ensures AllTraced(x.db.attempts, x.log, next, ViewReading) && x.log.cmms == log.cmms
  {
    assert log.lost + [] == log.lost;
    EndTraced(d.attempts, log, p, pc, x.log, next);
  }

  lemma OrdersOfPass(env: Env, d: Slice, log: Log, p: nat, pc: ActionPc, event: ActionEvent, x: ActionEffect)
    requires Act(env, d, log, p, pc, event) == Some(x)
    ensures x.log.cmms == log.cmms || (|x.log.cmms| == |log.cmms| + 1 && log.cmms <= x.log.cmms
      && x.log.cmms[|log.cmms|].pass == p)
  {
  }

  lemma AfterAction(env: Env, c: Case, p: nat, event: ActionEvent, x: ActionEffect, after: Case)
    requires Exclusive(c) && Executions(c) && Repeats(c) && p in c.action.passes
    requires Act(env, c.db, c.log, p, c.action.passes[p], event) == Some(x)
    requires after == c.(db := x.db, log := x.log, action := Continue(c.action, p, x.rest))
    ensures Repeats(after)
  {
    assert PassReady(c.db.attempts, c.log.attemptPass, p, c.action.passes[p]);
    OrdersOfPass(env, c.db, c.log, p, c.action.passes[p], event, x);
    if x.rest.Some? {
      GoesOn(env, c.db, c.log, p, c.action.passes[p], event, x);
      assert p in after.action.passes;
    } else {
      Ends(env, c.db, c.log, p, c.action.passes[p], event, x, c.next);
    }
  }

  lemma AfterCrash(c: Case)
    requires Exclusive(c) && Repeats(c)
    ensures Repeats(Crashed(c))
  {
    if p :| p in c.action.passes {
      assert Crashed(c).log == c.log.(lost := c.log.lost + LostWith(c.log, c.action.passes[p]));
      EndTraced(c.db.attempts, c.log, p, c.action.passes[p], Crashed(c).log, c.next);
    } else {
      assert c.action.passes == map[];
      assert c.log.lost + [] == c.log.lost;
      SameTraces(c.db.attempts, c.log, Crashed(c).log, c.next, ViewReading);
    }
  }

  /** A new pass has placed nothing yet. */
  lemma FreshTraced(rows: seq<AttemptRow>, log: Log, p: nat, next: nat)
    requires AllTraced(rows, log, p, ViewReading)
    requires forall w :: 0 <= w < |log.cmms| ==> log.cmms[w].pass < next
    ensures AllTraced(rows, log, next, ViewReading)
  {
    forall w: nat | w < |log.cmms| ensures Traced(rows, log, next, ViewReading, w) {
      assert Traced(rows, log, p, ViewReading, w);
    }
  }

  lemma AfterStart(env: Env, c: Case, after: Case)
    requires Exclusive(c) && Repeats(c) && Next(env, c, ActionStart) == Some(after)
    ensures Repeats(after)
  {
    assert c.action.passes == map[];
    assert c.next in after.action.passes;
  }

  lemma AfterOthers(c: Case, after: Case)
    requires Repeats(c) && ActionFrame.SameExecution(c, after)
    ensures Repeats(after)
  {
    if c.action.passes == map[] { FreshTraced(c.db.attempts, c.log, c.next, after.next); }
    forall p | p in after.action.passes ensures AllTraced(after.db.attempts, after.log, p, after.action.passes[p]) {
      SameTraces(c.db.attempts, c.log, after.log, p, c.action.passes[p]);
    }
    if c.action.passes == map[] { SameTraces(c.db.attempts, c.log, after.log, after.next, ViewReading); }
  }

  lemma SameTraces(rows: seq<AttemptRow>, log: Log, after: Log, p: nat, pc: ActionPc)
    requires AllTraced(rows, log, p, pc) && after.(decided := log.decided) == log
    ensures AllTraced(rows, after, p, pc)
  {
    forall w: nat | w < |after.cmms| ensures Traced(rows, after, p, pc, w) {
      assert Traced(rows, log, p, pc, w);
    }
  }

  lemma RepeatsKept(env: Env, c: Case, e: Event, after: Case)
    requires Exclusive(c) && Executions(c) && Repeats(c) && Next(env, c, e) == Some(after)
    ensures Repeats(after)
  {
    match e
    case ActionStart => AfterStart(env, c, after);
    case ActionStep(p, a) => AfterAction(env, c, p, a, Act(env, c.db, c.log, p, c.action.passes[p], a).value, after);
    case Crash => AfterCrash(c);
    case _ =>
      ActionFrame.OthersLeave(env, c, e, after);
      AfterOthers(c, after);
  }
}
