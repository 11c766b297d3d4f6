/**
 The lease ledger: the status of every GPU lease is fixed by the start task of its instance and by
 the results the server accepted, in the order it accepted them.
 */
module LeaseLedger {
  import opened Results
  import opened Protocol
  import opened ProtocolInvariants

  /** The start of the instance was rejected, and no stop of it had succeeded by then. */
  ghost predicate RejectedBeforeStop(history: seq<Outcome>, instance: Id) {
    exists k | 0 <= k < |history| :: history[k] == StartRejected(instance) && StopSucceeded(instance) !in history[..k]
  }

  /** The status a lease must have, given the status of the start task and what was accepted so far. */
  ghost function Due(history: seq<Outcome>, instance: Id, start: TaskStatus): LeaseStatus {
    if StopSucceeded(instance) in history then
      if RejectedBeforeStop(history, instance) then LeaseFailed else LeaseReleased
    else match start
      case TaskCompleted => LeaseActive
      case TaskFailed => LeaseFailed
      case _ => LeaseReserved
  }

  ghost predicate IsStartOf(tasks: map<Id, Task>, t: Id, instance: Id) {
    t in tasks && tasks[t].kind == StartTask && tasks[t].instance == instance
  }

  ghost predicate EveryInstanceStarted(s: State) {
    forall i | i in s.instances :: exists t :: IsStartOf(s.tasks, t, i)
  }

  /** A start task is completed (failed) exactly when the history says its instance started (was rejected). */
  ghost predicate HistoryMatches(tasks: map<Id, Task>, history: seq<Outcome>) {
    forall t | t in tasks && tasks[t].kind == StartTask ::
      && (tasks[t].status == TaskCompleted <==> StartSucceeded(tasks[t].instance) in history)
      && (tasks[t].status == TaskFailed <==> StartRejected(tasks[t].instance) in history)
  }

  ghost predicate LeasesDue(leases: map<Id, Lease>, tasks: map<Id, Task>, history: seq<Outcome>) {
    forall l, t | l in leases && IsStartOf(tasks, t, leases[l].instance) ::
      leases[l].status == Due(history, leases[l].instance, tasks[t].status)
  }

  ghost predicate Ledger(s: State) {
    EveryInstanceStarted(s) && HistoryMatches(s.tasks, s.history) && LeasesDue(s.leases, s.tasks, s.history)
  }

  // ------------------------------------------------------------------------------------------
  // The ledger entry after one more outcome
  // ------------------------------------------------------------------------------------------

  lemma DueOfOther(history: seq<Outcome>, o: Outcome, i: Id, start: TaskStatus)
    requires o.instance != i
    ensures Due(history + [o], i, start) == Due(history, i, start)
  {
    RejectedAppend(history, o, i);
  }

  lemma RejectedAppend(history: seq<Outcome>, o: Outcome, i: Id)
    ensures RejectedBeforeStop(history + [o], i) <==>
            RejectedBeforeStop(history, i) || (o == StartRejected(i) && StopSucceeded(i) !in history)
  {
    var after := history + [o];
    assert forall k | 0 <= k <= |history| :: after[..k] == history[..k];
    assert history[..|history|] == history;
    if RejectedBeforeStop(history, i) {
      var k :| 0 <= k < |history| && history[k] == StartRejected(i) && StopSucceeded(i) !in history[..k];
      assert after[k] == StartRejected(i);
    }
    if o == StartRejected(i) && StopSucceeded(i) !in history {
      assert after[|history|] == StartRejected(i);
    }
  }

  lemma RejectedOnlyIfRejected(history: seq<Outcome>, i: Id)
    ensures RejectedBeforeStop(history, i) ==> StartRejected(i) in history
    ensures StartRejected(i) in history && StopSucceeded(i) !in history ==> RejectedBeforeStop(history, i)
  {
    if StartRejected(i) in history && StopSucceeded(i) !in history {
      var k :| 0 <= k < |history| && history[k] == StartRejected(i);
      assert StopSucceeded(i) !in history[..k];
    }
  }

  /** One result moves a due lease to a due lease. */
  lemma DueAfterResult(history: seq<Outcome>, kind: TaskKind, ok: bool, i: Id, start: TaskStatus, l: Lease)
    requires l.status == Due(history, i, start)
    requires start == TaskCompleted <==> StartSucceeded(i) in history
    requires start == TaskFailed <==> StartRejected(i) in history
    requires kind == StartTask ==> Unfinished(start)
    ensures var after := if kind != StartTask then start else if ok then TaskCompleted else TaskFailed;
            LeaseAfterResult(kind, ok, l).status == Due(history + OutcomeOf(kind, ok, i), i, after)
  {
    var outcome := OutcomeOf(kind, ok, i);
    RejectedOnlyIfRejected(history, i);
    if outcome != [] {
      assert outcome == [outcome[0]];
      RejectedAppend(history, outcome[0], i);
    } else {
      assert history + outcome == history;
    }
  }

  // ------------------------------------------------------------------------------------------
  // Every event keeps the ledger
  // ------------------------------------------------------------------------------------------

  lemma ShapeKeepsStarts(s: State, r: State)
    requires SameShape(s, r) && EveryInstanceStarted(s)
    ensures EveryInstanceStarted(r)
  {
    forall i | i in r.instances ensures exists t :: IsStartOf(r.tasks, t, i) {
      var t :| IsStartOf(s.tasks, t, i);
      assert IsStartOf(r.tasks, t, i);
    }
  }

  lemma SettleKeepsHistory(tasks: map<Id, Task>, history: seq<Outcome>, t: Id, ok: bool)
    requires HistoryMatches(tasks, history) && OneStartTask(tasks) && t in tasks && Unfinished(tasks[t].status)
    ensures HistoryMatches(tasks[t := tasks[t].(status := if ok then TaskCompleted else TaskFailed)],
                           history + OutcomeOf(tasks[t].kind, ok, tasks[t].instance))
  {
  }

  lemma SettleKeepsLedger(s: State, t: Id, ok: bool)
    requires Inv(s) && Ledger(s) && t in s.tasks && s.tasks[t].instance in s.instances && s.tasks[t].instance != NO_ID
    requires Unfinished(s.tasks[t].status)
    ensures Ledger(Settle(s, t, s.tasks[t].kind, ok, s.tasks[t].instance))
  {
    var kind, instance := s.tasks[t].kind, s.tasks[t].instance;
    var r := Settle(s, t, kind, ok, instance);
    SettleRows(s, t, kind, ok, instance);
    ShapeKeepsStarts(s, r);
    SettleKeepsHistory(s.tasks, s.history, t, ok);
    forall l, u | l in r.leases && IsStartOf(r.tasks, u, r.leases[l].instance)
      ensures r.leases[l].status == Due(r.history, r.leases[l].instance, r.tasks[u].status)
    {
      assert IsStartOf(s.tasks, u, s.leases[l].instance);
      SettledLeaseDue(s, t, ok, l, u);
    }
  }

  lemma SettledLeaseDue(s: State, t: Id, ok: bool, l: Id, u: Id)
    requires OneStartTask(s.tasks) && HistoryMatches(s.tasks, s.history) && LeasesDue(s.leases, s.tasks, s.history)
    requires t in s.tasks && Unfinished(s.tasks[t].status) && l in s.leases && IsStartOf(s.tasks, u, s.leases[l].instance)
    ensures var kind, i := s.tasks[t].kind, s.tasks[t].instance;
            var after := if u == t then (if ok then TaskCompleted else TaskFailed) else s.tasks[u].status;
            (if s.leases[l].instance == i then LeaseAfterResult(kind, ok, s.leases[l]) else s.leases[l]).status
            == Due(s.history + OutcomeOf(kind, ok, i), s.leases[l].instance, after)
  {
    var kind, i := s.tasks[t].kind, s.tasks[t].instance;
    var outcome := OutcomeOf(kind, ok, i);
    if s.leases[l].instance == i {
      DueAfterResult(s.history, kind, ok, i, s.tasks[u].status, s.leases[l]);
    } else if outcome == [] {
      assert s.history + outcome == s.history;
    } else {
      assert outcome == [outcome[0]];
      DueOfOther(s.history, outcome[0], s.leases[l].instance, s.tasks[u].status);
    }
  }

  lemma HeartbeatKeepsLedger(s: State, node: Id, agent: Id, now: int, picked: seq<Id>)
    requires Inv(s) && Ledger(s) && node in s.nodes
    requires forall k | 0 <= k < |picked| :: picked[k] in PendingOn(Swept(s, node, now).tasks, node)
    ensures Ledger(Claim(Swept(s, node, now), agent, now, picked))
  {
    HeartbeatRows(s, node, agent, now, picked);
    HeartbeatSettlesNothing(s, node, agent, now, picked);
    UnsettledKeepsLedger(s, Claim(Swept(s, node, now), agent, now, picked));
  }

  lemma UnsettledKeepsLedger(s: State, r: State)
    requires Ledger(s) && SameShape(s, r) && r.leases == s.leases && r.history == s.history
    requires forall t | t in s.tasks :: SettlesNothing(s.tasks[t], r.tasks[t])
    ensures Ledger(r)
  {
    ShapeKeepsStarts(s, r);
    UnsettledKeepsDue(s.leases, s.tasks, r.tasks, s.history);
  }

  lemma HeartbeatSettlesNothing(s: State, node: Id, agent: Id, now: int, picked: seq<Id>)
    requires NeverExpires(s.leases) && node in s.nodes
    requires forall k | 0 <= k < |picked| :: picked[k] in PendingOn(Swept(s, node, now).tasks, node)
    ensures forall t | t in s.tasks :: SettlesNothing(s.tasks[t], Claim(Swept(s, node, now), agent, now, picked).tasks[t])
  {
    HeartbeatRows(s, node, agent, now, picked);
    forall t | t in s.tasks ensures SettlesNothing(s.tasks[t], Claim(Swept(s, node, now), agent, now, picked).tasks[t]) {
      if t in picked {
        PickedRow(s, node, now, picked, t);
      }
    }
  }

  /** The row moved, if at all, from unfinished to claimed or timed out. */
  ghost predicate SettlesNothing(t: Task, u: Task) {
    u.kind == t.kind && u.instance == t.instance
    && (u.status == t.status || (Unfinished(t.status) && u.status != TaskCompleted && u.status != TaskFailed))
  }

  lemma UnsettledKeepsDue(leases: map<Id, Lease>, tasks: map<Id, Task>, after: map<Id, Task>, history: seq<Outcome>)
    requires HistoryMatches(tasks, history) && LeasesDue(leases, tasks, history) && after.Keys == tasks.Keys
    requires forall t | t in tasks :: SettlesNothing(tasks[t], after[t])
    ensures HistoryMatches(after, history) && LeasesDue(leases, after, history)
  {
    forall l, t | l in leases && IsStartOf(after, t, leases[l].instance)
      ensures leases[l].status == Due(history, leases[l].instance, after[t].status)
    {
      assert SettlesNothing(tasks[t], after[t]);
      assert IsStartOf(tasks, t, leases[l].instance);
    }
  }

  lemma StartKeepsLedger(s: State, d: Id, node: Id, gpus: map<Id, Id>, instance: Id, plan: Id, group: Id, task: Id, now: int, r: State)
    requires Inv(s) && Ledger(s) && Started(s, d, node, gpus, instance, plan, group, task, now, r) && instance !in s.issued
    ensures Ledger(r)
  {
    assert StartSucceeded(instance) !in s.history && StartRejected(instance) !in s.history && StopSucceeded(instance) !in s.history;
    assert HistoryMatches(r.tasks, r.history);
    forall i | i in r.instances ensures exists t :: IsStartOf(r.tasks, t, i) {
      if i == instance {
        assert IsStartOf(r.tasks, task, i);
      } else {
        var t :| IsStartOf(s.tasks, t, i);
        assert IsStartOf(r.tasks, t, i);
      }
    }
    forall l, t | l in r.leases && IsStartOf(r.tasks, t, r.leases[l].instance)
      ensures r.leases[l].status == Due(r.history, r.leases[l].instance, r.tasks[t].status)
    {
      if l in s.leases {
        assert BelongsTo(s.instances, s.deployments.Keys, s.leases[l].instance, s.leases[l].deployment);
        assert IsStartOf(s.tasks, t, s.leases[l].instance);
      } else {
        StartedByNewTask(s, r, task, instance, t);
      }
    }
  }

  lemma StartedByNewTask(s: State, r: State, task: Id, instance: Id, t: Id)
    requires Closed(s) && instance !in s.instances && r.tasks.Keys == s.tasks.Keys + {task}
    requires forall u | u in s.tasks :: r.tasks[u] == s.tasks[u]
    requires IsStartOf(r.tasks, t, instance)
    ensures t == task
  {
    assert forall u | u in s.tasks :: BelongsTo(s.instances, s.deployments.Keys, s.tasks[u].instance, s.tasks[u].deployment);
  }

  lemma InsertTaskKeepsLedger(s: State, r: State, t: Id, task: Task)
    requires Inv(s) && Ledger(s) && t !in s.tasks && task.kind != StartTask
    requires r.tasks == s.tasks[t := task] && r.instances.Keys == s.instances.Keys
    requires r.leases == s.leases && r.history == s.history
    ensures Ledger(r)
  {
    forall i | i in r.instances ensures exists u :: IsStartOf(r.tasks, u, i) {
      var u :| IsStartOf(s.tasks, u, i);
      assert IsStartOf(r.tasks, u, i);
    }
    assert forall u, i | IsStartOf(r.tasks, u, i) :: IsStartOf(s.tasks, u, i);
  }

  lemma DeleteKeepsLedger(s: State, d: Id)
    requires Inv(s) && Ledger(s)
    ensures Ledger(DeleteStep(s, d))
  {
    if d in s.deployments {
      var r := DeleteStep(s, d);
      forall i | i in r.instances ensures exists t :: IsStartOf(r.tasks, t, i) {
        var t :| IsStartOf(s.tasks, t, i);
        assert BelongsTo(s.instances, s.deployments.Keys, s.tasks[t].instance, s.tasks[t].deployment);
        assert IsStartOf(r.tasks, t, i);
      }
      assert forall u, i | IsStartOf(r.tasks, u, i) :: IsStartOf(s.tasks, u, i);
      assert forall l | l in r.leases :: r.leases[l] == s.leases[l];
    }
  }

  lemma SameRowsKeepLedger(s: State, r: State)
    requires Ledger(s) && r.instances.Keys == s.instances.Keys && r.tasks == s.tasks && r.leases == s.leases && r.history == s.history
    ensures Ledger(r)
  {
  }

  lemma LedgerStep(s: State, e: Event)
    requires Inv(s) && Ledger(s) && Allowed(s, e)
    ensures Ledger(Apply(s, e))
  {
    match e
    case Heartbeat(node, agent, now, picked, _) =>
      if HeartbeatAccepted(s, node, agent) {
        HeartbeatKeepsLedger(s, node, agent, now, picked);
      }
    case TaskResult(t, report, now) =>
      if ResultAccepted(s, t, report) {
        ResultSettles(s, t, report, now);
        assert CycleOk(s.tasks[t]);
        SettleKeepsLedger(s, t, VerdictOf(report) == Succeeded);
      }
    case Start(d, node, gpus, preflight, instance, plan, group, task, now) =>
      if StartAccepted(s, d, preflight, gpus) {
        StartRows(s, d, node, gpus, instance, plan, group, task, now);
        StartKeepsLedger(s, d, node, gpus, instance, plan, group, task, now, Apply(s, e));
      }
    case Delete(d) => DeleteKeepsLedger(s, d);
    case _ => OtherKeepsLedger(s, e);
  }

  lemma DispatchKeepsLedger(s: State, e: Event)
    requires Inv(s) && Ledger(s) && Allowed(s, e) && e.DispatchStop?
    ensures Ledger(Apply(s, e))
  {
    if e.online {
      InsertTaskKeepsLedger(s, Apply(s, e), e.task, NewTask(StopTask, e.deployment, e.instance, e.node, e.now, STOP_TIMEOUT));
    } else {
      SameRowsKeepLedger(s, Apply(s, e));
    }
  }

  lemma OtherKeepsLedger(s: State, e: Event)
    requires Inv(s) && Ledger(s) && Allowed(s, e)
    requires !e.Heartbeat? && !e.TaskResult? && !e.Start? && !e.Delete?
    ensures Ledger(Apply(s, e))
  {
    var r := Apply(s, e);
    match e
    case DispatchStop(_, _, _, _, _, _) => DispatchKeepsLedger(s, e);
    case RequestLogs(plan, task, now) =>
      if LogsAccepted(s, plan) {
        InsertTaskKeepsLedger(s, r, task, r.tasks[task]);
      }
    case _ =>
      RowsAreSpared(s, e);
      SameRowsKeepLedger(s, r);
  }

  lemma {:induction false} LedgerRun(s: State, events: seq<Event>)
    requires Inv(s) && Ledger(s) && Legal(s, events)
    ensures Inv(Run(s, events)) && Ledger(Run(s, events))
    decreases |events|
  {
    if events != [] {
      InvStep(s, events[0]);
      LedgerStep(s, events[0]);
      LedgerRun(Apply(s, events[0]), events[1..]);
    }
  }

  /** In every reachable state each lease has exactly one start task, and the status that is due to it. */
  lemma LeasesFollowHistory(events: seq<Event>, l: Id) returns (t: Id)
    requires Legal(Initial, events) && l in Run(Initial, events).leases
    ensures var s := Run(Initial, events);
      && IsStartOf(s.tasks, t, s.leases[l].instance)
      && (forall u | IsStartOf(s.tasks, u, s.leases[l].instance) :: u == t)
      && s.leases[l].status == Due(s.history, s.leases[l].instance, s.tasks[t].status)
  {
    LedgerRun(Initial, events);
    var s := Run(Initial, events);
    assert BelongsTo(s.instances, s.deployments.Keys, s.leases[l].instance, s.leases[l].deployment);
    t :| IsStartOf(s.tasks, t, s.leases[l].instance);
  }

  // ------------------------------------------------------------------------------------------
  // Consequences
  // ------------------------------------------------------------------------------------------

  /** A start task that timed out leaves its GPUs reserved: no start that needs one of them is accepted. */
  lemma TimedOutStartKeepsGpu(s: State, t: Id, l: Id, d: Id, preflight: bool, gpus: map<Id, Id>, m: Id)
    requires Ledger(s) && l in s.leases && IsStartOf(s.tasks, t, s.leases[l].instance)
    requires s.tasks[t].status == TaskTimedOut && StopSucceeded(s.leases[l].instance) !in s.history
    requires m in gpus && gpus[m] == s.leases[l].gpu
    ensures s.leases[l].status == LeaseReserved && !StartAccepted(s, d, preflight, gpus)
  {
    assert GpuHeld(s, gpus[m]);
  }

  /** No event moves a lease out of released or failed, or changes what it is for. */
  lemma LeaseFinalStep(s: State, e: Event, l: Id)
    requires Inv(s) && Allowed(s, e) && l in s.leases && l in Apply(s, e).leases
    ensures Apply(s, e).leases[l] == s.leases[l].(status := Apply(s, e).leases[l].status)
    ensures !Holds(s.leases[l]) ==> Apply(s, e).leases[l] == s.leases[l]
  {
    if SparesRows(e) {
      RowsAreSpared(s, e);
      return;
    }
    match e
    case Heartbeat(node, agent, now, picked, _) =>
      if HeartbeatAccepted(s, node, agent) {
        HeartbeatRows(s, node, agent, now, picked);
      }
    case TaskResult(t, report, now) =>
      if ResultAccepted(s, t, report) {
        ResultSettles(s, t, report, now);
        SettleRows(s, t, s.tasks[t].kind, VerdictOf(report) == Succeeded, s.tasks[t].instance);
      }
    case Start(d, node, gpus, preflight, instance, plan, group, task, now) =>
      if StartAccepted(s, d, preflight, gpus) {
        StartRows(s, d, node, gpus, instance, plan, group, task, now);
      }
    case _ =>
  }

  lemma LeaseGoneStep(s: State, e: Event, l: Id)
    requires Inv(s) && Allowed(s, e) && l in s.issued && l !in s.leases
    ensures l !in Apply(s, e).leases && l in Apply(s, e).issued
  {
    match e
    case Heartbeat(node, agent, now, picked, _) =>
      if HeartbeatAccepted(s, node, agent) {
        HeartbeatRows(s, node, agent, now, picked);
      }
    case TaskResult(t, report, now) =>
      if ResultAccepted(s, t, report) {
        ResultSettles(s, t, report, now);
        SettleRows(s, t, s.tasks[t].kind, VerdictOf(report) == Succeeded, s.tasks[t].instance);
      }
    case Start(d, node, gpus, preflight, instance, plan, group, task, now) =>
      if StartAccepted(s, d, preflight, gpus) {
        StartRows(s, d, node, gpus, instance, plan, group, task, now);
      }
    case _ =>
  }

  lemma {:induction false} LeaseGoneRun(s: State, events: seq<Event>, l: Id)
    requires Inv(s) && Legal(s, events) && l in s.issued && l !in s.leases
    ensures l !in Run(s, events).leases
    decreases |events|
  {
    if events != [] {
      InvStep(s, events[0]);
      LeaseGoneStep(s, events[0], l);
      LeaseGoneRun(Apply(s, events[0]), events[1..], l);
    }
  }

  /** Over every run a released or failed lease stays as it is for as long as its row exists. */
  lemma {:induction false} LeaseFinal(s: State, events: seq<Event>, l: Id)
    requires Inv(s) && Legal(s, events) && l in s.leases && !Holds(s.leases[l]) && l in Run(s, events).leases
    ensures Run(s, events).leases[l] == s.leases[l]
    decreases |events|
  {
    if events != [] {
      var r := Apply(s, events[0]);
      InvStep(s, events[0]);
      if l in r.leases {
        LeaseFinalStep(s, events[0], l);
        LeaseFinal(r, events[1..], l);
      } else {
        IssuedGrows(s, events[0]);
        LeaseGoneRun(r, events[1..], l);
      }
    }
  }

  lemma IssuedGrows(s: State, e: Event)
    requires Inv(s) && Allowed(s, e)
    ensures s.issued <= Apply(s, e).issued
  {
    match e
    case Heartbeat(node, agent, now, picked, _) =>
      if HeartbeatAccepted(s, node, agent) {
        HeartbeatRows(s, node, agent, now, picked);
      }
    case _ =>
  }
}
