/** What can happen to one task row, in one event and over a whole run. */
module TaskLifeCycle {
  import opened Results
  import opened Protocol
  import opened ProtocolInvariants
  import opened LeaseLedger

  ghost predicate ClaimsTask(e: Event, t: Id) {
    e.Heartbeat? && t in e.picked
  }

  /** The moves of a task row: stay, be claimed, time out, be settled by a result. */
  ghost predicate TaskMoves(e: Event, t: Id, a: Task, z: Task) {
    || (z == a && !ClaimsTask(e, t))
    || (ClaimsTask(e, t) && a.status == TaskPending && a.node == e.node && !Overdue(a, e.now)
        && z == ClaimTask(a, e.agent, e.now))
    || (e.Heartbeat? && t !in e.picked && a.node == e.node && Unfinished(a.status) && Overdue(a, e.now)
        && z == a.(status := TaskTimedOut))
    || (e.TaskResult? && e.task == t && Unfinished(a.status)
        && (z == a.(status := TaskCompleted) || z == a.(status := TaskFailed)))
  }

  lemma TaskStep(s: State, e: Event, t: Id)
    requires Inv(s) && Allowed(s, e) && t in s.tasks
    ensures t in Apply(s, e).tasks ==> TaskMoves(e, t, s.tasks[t], Apply(s, e).tasks[t])
    ensures t !in Apply(s, e).tasks <==> e.Delete? && s.tasks[t].deployment == e.deployment
  {
    if SparesRows(e) {
      RowsAreSpared(s, e);
      return;
    }
    match e
    case Heartbeat(node, agent, now, picked, _) =>
      if HeartbeatAccepted(s, node, agent) {
        HeartbeatRows(s, node, agent, now, picked);
        if t in picked {
          PickedRow(s, node, now, picked, t);
        }
      }
    case TaskResult(u, report, now) =>
      if ResultAccepted(s, u, report) {
        assert CycleOk(s.tasks[u]);
        ResultSettles(s, u, report, now);
        SettleRows(s, u, s.tasks[u].kind, VerdictOf(report) == Succeeded, s.tasks[u].instance);
      }
    case Start(d, node, gpus, preflight, instance, plan, group, task, now) =>
      if StartAccepted(s, d, preflight, gpus) {
        StartRows(s, d, node, gpus, instance, plan, group, task, now);
      }
    case Delete(d) => assert BelongsTo(s.instances, s.deployments.Keys, s.tasks[t].instance, s.tasks[t].deployment);
    case _ =>
  }

  lemma TaskGoneStep(s: State, e: Event, t: Id)
    requires Inv(s) && Allowed(s, e) && t in s.issued && t !in s.tasks
    ensures t !in Apply(s, e).tasks
  {
    match e
    case Heartbeat(node, agent, now, picked, _) =>
      if HeartbeatAccepted(s, node, agent) {
        HeartbeatRows(s, node, agent, now, picked);
      }
    case TaskResult(u, report, now) =>
      if ResultAccepted(s, u, report) {
        ResultSettles(s, u, report, now);
        SettleRows(s, u, s.tasks[u].kind, VerdictOf(report) == Succeeded, s.tasks[u].instance);
      }
    case Start(d, node, gpus, preflight, instance, plan, group, task, now) =>
      if StartAccepted(s, d, preflight, gpus) {
        StartRows(s, d, node, gpus, instance, plan, group, task, now);
      }
    case _ =>
  }

  /** A deleted task never comes back. */
  lemma {:induction false} TaskGone(s: State, events: seq<Event>, t: Id)
    requires Inv(s) && Legal(s, events) && t in s.issued && t !in s.tasks
    ensures t !in Run(s, events).tasks
    decreases |events|
  {
    if events != [] {
      InvStep(s, events[0]);
      TaskGoneStep(s, events[0], t);
      IssuedGrows(s, events[0]);
      TaskGone(Apply(s, events[0]), events[1..], t);
    }
  }

  /** How many heartbeats of the run claimed the task. */
  ghost function Claims(events: seq<Event>, t: Id): nat
    decreases |events|
  {
    if events == [] then 0 else (if ClaimsTask(events[0], t) then 1 else 0) + Claims(events[1..], t)
  }

  /** From row `a` to row `z` with `claims` claims: final stays final, pending was pending, counters rise together. */
  ghost predicate LifeOf(a: Task, z: Task, claims: nat) {
    && SameTask(a, z)
    && (Terminal(a.status) ==> z == a)
    && (z.status == TaskPending ==> z == a)
    && z.generation == a.generation + claims && z.attempt == a.attempt + claims && z.retryCount == a.retryCount + claims
    && claims <= 1 && (a.status != TaskPending ==> claims == 0)
  }

  lemma LifeGoesOn(e: Event, t: Id, a: Task, m: Task, z: Task, claims: nat)
    requires TaskMoves(e, t, a, m) && LifeOf(m, z, claims)
    ensures LifeOf(a, z, (if ClaimsTask(e, t) then 1 else 0) + claims)
  {
  }

  /**
   The life of a task over any run: terminal statuses are final, nothing returns to pending, and
   generation, attempt and retry_count rise together, once, exactly when a heartbeat claimed it.
   */
  lemma {:induction false} TaskLife(s: State, events: seq<Event>, t: Id)
    requires Inv(s) && Legal(s, events) && t in s.tasks && t in Run(s, events).tasks
    ensures LifeOf(s.tasks[t], Run(s, events).tasks[t], Claims(events, t))
    decreases |events|
  {
    if events != [] {
      var r := Apply(s, events[0]);
      InvStep(s, events[0]);
      TaskStep(s, events[0], t);
      if t in r.tasks {
        TaskLife(r, events[1..], t);
        LifeGoesOn(events[0], t, s.tasks[t], r.tasks[t], Run(s, events).tasks[t], Claims(events[1..], t));
      } else {
        IssuedGrows(s, events[0]);
        TaskGone(r, events[1..], t);
      }
    }
  }

  /** The same from the empty database: the counters of a live row tell whether it was ever claimed. */
  lemma CountersTellClaims(events: seq<Event>, t: Id)
    requires Legal(Initial, events) && t in Run(Initial, events).tasks
    ensures var task := Run(Initial, events).tasks[t];
      task.generation == task.retryCount == task.attempt - 1 == Claims(events, t) <= 1
  {
    ReachableInv(events);
    assert CycleOk(Run(Initial, events).tasks[t]);
    CountersFrom(Initial, events, t);
  }

  lemma {:induction false} CountersFrom(s: State, events: seq<Event>, t: Id)
    requires Inv(s) && Legal(s, events) && t !in s.tasks && t in Run(s, events).tasks
    ensures Run(s, events).tasks[t].generation == Claims(events, t) && Claims(events, t) <= 1
    decreases |events|
  {
    if events != [] {
      var r := Apply(s, events[0]);
      InvStep(s, events[0]);
      NotYetClaimed(s, events[0], t);
      if t in r.tasks {
        TaskLife(r, events[1..], t);
      } else {
        CountersFrom(r, events[1..], t);
      }
    }
  }

  lemma NotYetClaimed(s: State, e: Event, t: Id)
    requires Inv(s) && Allowed(s, e) && t !in s.tasks
    ensures !ClaimsTask(e, t)
    ensures t in Apply(s, e).tasks ==> Apply(s, e).tasks[t].generation == 0
  {
    match e
    case Heartbeat(node, agent, now, picked, _) =>
      if HeartbeatAccepted(s, node, agent) {
        HeartbeatRows(s, node, agent, now, picked);
        if t in picked {
          PickedRow(s, node, now, picked, t);
        }
      }
    case TaskResult(u, report, now) =>
      if ResultAccepted(s, u, report) {
        ResultSettles(s, u, report, now);
        SettleRows(s, u, s.tasks[u].kind, VerdictOf(report) == Succeeded, s.tasks[u].instance);
      }
    case Start(d, node, gpus, preflight, instance, plan, group, task, now) =>
      if StartAccepted(s, d, preflight, gpus) {
        StartRows(s, d, node, gpus, instance, plan, group, task, now);
      }
    case _ =>
  }
}
