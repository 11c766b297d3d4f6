/**
 What every handler keeps: no dangling reference, the task life cycle, one holder per GPU. Each
 invariant is kept by every allowed event and hence holds in every reachable state.
 */
module ProtocolInvariants {
  import opened Results
  import opened Protocol

  /** Every key ever used was issued, so a new UUID collides with nothing. */
  ghost predicate Issued(s: State) {
    && s.deployments.Keys <= s.issued && s.instances.Keys <= s.issued && s.plans.Keys <= s.issued
    && s.groups.Keys <= s.issued && s.leases.Keys <= s.issued && s.tasks.Keys <= s.issued
    && NO_ID in s.issued && NO_ID !in s.instances
    && OutcomesIssued(s.history, s.issued)
  }

  ghost predicate OutcomesIssued(history: seq<Outcome>, issued: set<Id>) {
    forall k | 0 <= k < |history| :: history[k].instance in issued
  }

  ghost predicate BelongsTo(instances: map<Id, Instance>, deployments: set<Id>, instance: Id, deployment: Id) {
    instance in instances && deployment in deployments && instances[instance].deployment == deployment
  }

  /** Referential closure: every row belongs to an existing deployment, through an existing instance. */
  ghost predicate Closed(s: State) {
    && (forall i | i in s.instances :: s.instances[i].deployment in s.deployments)
    && (forall p | p in s.plans :: BelongsTo(s.instances, s.deployments.Keys, s.plans[p].instance, s.plans[p].deployment))
    && (forall g | g in s.groups :: s.groups[g] in s.deployments)
    && (forall l | l in s.leases :: BelongsTo(s.instances, s.deployments.Keys, s.leases[l].instance, s.leases[l].deployment))
    && (forall t | t in s.tasks :: BelongsTo(s.instances, s.deployments.Keys, s.tasks[t].instance, s.tasks[t].deployment))
  }

  ghost predicate CycleOk(t: Task) {
    && t.generation == t.retryCount && t.attempt == t.generation + 1 && t.generation <= 1
    && (t.generation == 1 <==> t.claimedAt.Some?)
    && (t.status == TaskPending ==> t.claimedAt.None?)
    && (t.status == TaskClaimed ==> t.claimedAt.Some?)
    && t.status != TaskInProgress
  }

  /** generation, attempt and retry_count move together, once, at the claim; nothing is ever in_progress. */
  ghost predicate LifeCycle(tasks: map<Id, Task>) {
    forall t | t in tasks :: CycleOk(tasks[t])
  }

  /** Neither given back nor lost. */
  predicate Occupies(l: Lease) {
    l.status != LeaseReleased && l.status != LeaseFailed
  }

  /** A GPU has at most one reserved or active lease. */
  ghost predicate GpuExclusive(leases: map<Id, Lease>) {
    forall l, m | l in leases && m in leases && l != m ::
      Occupies(leases[l]) && Occupies(leases[m]) ==> leases[l].gpu != leases[m].gpu
  }

  ghost predicate NeverExpires(leases: map<Id, Lease>) {
    forall l | l in leases :: leases[l].expiresAt.None?
  }

  /** Each instance was started by one task. */
  ghost predicate OneStartTask(tasks: map<Id, Task>) {
    forall t, u | t in tasks && u in tasks && tasks[t].kind == StartTask && tasks[u].kind == StartTask
      :: tasks[t].instance == tasks[u].instance ==> t == u
  }

  ghost predicate Inv(s: State) {
    Issued(s) && Closed(s) && LifeCycle(s.tasks) && GpuExclusive(s.leases) && NeverExpires(s.leases) && OneStartTask(s.tasks)
  }

  // ------------------------------------------------------------------------------------------
  // What each kind of event does to the rows
  // ------------------------------------------------------------------------------------------

  /** Same rows, and the same columns that say what a row belongs to. */
  ghost predicate SameShape(s: State, r: State) {
    && r.deployments.Keys == s.deployments.Keys && r.plans == s.plans && r.groups == s.groups && r.issued == s.issued
    && r.instances.Keys == s.instances.Keys
    && (forall i | i in s.instances :: r.instances[i].deployment == s.instances[i].deployment && r.instances[i].node == s.instances[i].node)
    && r.leases.Keys == s.leases.Keys
    && (forall l | l in s.leases :: r.leases[l] == s.leases[l].(status := r.leases[l].status))
    && r.tasks.Keys == s.tasks.Keys
    && (forall t | t in s.tasks :: SameTask(s.tasks[t], r.tasks[t]))
  }

  ghost predicate SameTask(t: Task, u: Task) {
    u.kind == t.kind && u.deployment == t.deployment && u.instance == t.instance && u.node == t.node
    && u.createdAt == t.createdAt && u.timeout == t.timeout
  }

  ghost predicate FailsOnly(instances: map<Id, Instance>, after: map<Id, Instance>) {
    after.Keys == instances.Keys
    && forall i | i in instances :: after[i] == instances[i] || after[i] == instances[i].(actual := InstanceFailed)
  }

  lemma SweepRows(s: State, node: Id, now: int)
    requires NeverExpires(s.leases)
    ensures var r := Sweep(s, node, now);
      && r.leases == s.leases && FailsOnly(s.instances, r.instances) && r.deployments.Keys == s.deployments.Keys
      && r.tasks == SweepTasks(s, node, now).tasks
      && r.plans == s.plans && r.groups == s.groups && r.issued == s.issued && r.history == s.history && r.nodes == s.nodes
  {
    var b := FailTimedOutInstances(SweepTasks(s, node, now), node);
    assert forall l | l in s.leases :: SweepLease(s.leases[l], now) == s.leases[l];
    assert SweepLeases(b, now).leases == s.leases;
  }

  /** Everything an accepted heartbeat leaves alone, and the three things it does to a task row. */
  lemma HeartbeatRows(s: State, node: Id, agent: Id, now: int, picked: seq<Id>)
    requires NeverExpires(s.leases) && node in s.nodes
    ensures var r := Claim(Swept(s, node, now), agent, now, picked);
      && SameShape(s, r) && r.leases == s.leases && r.history == s.history && FailsOnly(s.instances, r.instances)
      && (forall t | t in s.tasks :: r.tasks[t] ==
            if t in picked then ClaimTask(SweepTask(s.tasks[t], node, now), agent, now) else SweepTask(s.tasks[t], node, now))
  {
    SweepRows(MarkOnline(s, node), node, now);
  }

  /** A claimed row was pending on the node and within its timeout. */
  lemma PickedRow(s: State, node: Id, now: int, picked: seq<Id>, t: Id)
    requires NeverExpires(s.leases) && node in s.nodes && t in picked
    requires forall k | 0 <= k < |picked| :: picked[k] in PendingOn(Swept(s, node, now).tasks, node)
    ensures t in s.tasks && s.tasks[t].status == TaskPending && s.tasks[t].node == node && !Overdue(s.tasks[t], now)
    ensures SweepTask(s.tasks[t], node, now) == s.tasks[t]
  {
    SweepRows(MarkOnline(s, node), node, now);
    assert Swept(s, node, now).tasks[t].status == TaskPending;
  }

  lemma SettleRows(s: State, t: Id, kind: TaskKind, ok: bool, instance: Id)
    requires t in s.tasks && instance != NO_ID && instance in s.instances
    ensures var r := Settle(s, t, kind, ok, instance);
      && SameShape(s, r) && r.nodes == s.nodes && r.deployments == s.deployments
      && r.history == s.history + OutcomeOf(kind, ok, instance)
      && r.tasks == s.tasks[t := s.tasks[t].(status := if ok then TaskCompleted else TaskFailed)]
      && r.instances == s.instances[instance := InstanceAfterResult(kind, ok, s.instances[instance])]
      && (forall l | l in s.leases :: r.leases[l] ==
            if s.leases[l].instance == instance then LeaseAfterResult(kind, ok, s.leases[l]) else s.leases[l])
  {
  }

  /** An accepted result settles its own task and the instance that task was created for. */
  lemma ResultSettles(s: State, t: Id, report: Report, now: int)
    requires Closed(s) && Issued(s) && ResultAccepted(s, t, report)
    ensures var task := s.tasks[t];
      && task.instance in s.instances && task.instance != NO_ID
      && Apply(s, TaskResult(t, report, now)) == Settle(s, t, task.kind, VerdictOf(report) == Succeeded, task.instance)
  {
    assert BelongsTo(s.instances, s.deployments.Keys, s.tasks[t].instance, s.tasks[t].deployment);
  }

  /** The rows an accepted start adds; it touches no other row but the deployment's. */
  ghost predicate Started(s: State, d: Id, node: Id, gpus: map<Id, Id>, instance: Id, plan: Id, group: Id, task: Id, now: int, r: State) {
    && r.instances == s.instances[instance := Instance(d, node, InstancePending, true)] && instance !in s.instances && instance != NO_ID
    && r.plans == s.plans[plan := Plan(d, instance)] && plan !in s.plans
    && r.groups == s.groups[group := d]
    && r.tasks == s.tasks[task := NewTask(StartTask, d, instance, node, now, START_TIMEOUT)] && task !in s.tasks
    && r.leases.Keys == s.leases.Keys + gpus.Keys && s.leases.Keys !! gpus.Keys
    && (forall l | l in s.leases :: r.leases[l] == s.leases[l])
    && (forall l | l in gpus :: r.leases[l] == Lease(gpus[l], node, d, instance, LeaseReserved, None))
    && r.deployments.Keys == s.deployments.Keys && d in s.deployments && r.history == s.history
    && r.issued == s.issued + {instance, plan, group, task} + gpus.Keys
  }

  lemma StartRows(s: State, d: Id, node: Id, gpus: map<Id, Id>, instance: Id, plan: Id, group: Id, task: Id, now: int)
    requires Issued(s) && ({instance, plan, group, task} + gpus.Keys) !! s.issued && d in s.deployments
    ensures Started(s, d, node, gpus, instance, plan, group, task, now,
                    InsertStart(s, d, node, gpus, instance, plan, group, task, now))
  {
  }

  // ------------------------------------------------------------------------------------------
  // One invariant at a time
  // ------------------------------------------------------------------------------------------

  lemma ShapeKeepsClosed(s: State, r: State)
    requires SameShape(s, r) && Closed(s)
    ensures Closed(r)
  {
  }

  lemma ShapeKeepsOneStartTask(s: State, r: State)
    requires SameShape(s, r) && OneStartTask(s.tasks)
    ensures OneStartTask(r.tasks)
  {
  }

  lemma HeartbeatKeepsInv(s: State, node: Id, agent: Id, now: int, picked: seq<Id>)
    requires Inv(s) && node in s.nodes
    requires forall k | 0 <= k < |picked| :: picked[k] in PendingOn(Swept(s, node, now).tasks, node)
    ensures Inv(Claim(Swept(s, node, now), agent, now, picked))
  {
    var r := Claim(Swept(s, node, now), agent, now, picked);
    HeartbeatRows(s, node, agent, now, picked);
    ShapeKeepsClosed(s, r);
    ShapeKeepsOneStartTask(s, r);
    forall t | t in r.tasks ensures CycleOk(r.tasks[t]) {
      ClaimKeepsCycle(s.tasks[t], node, agent, now);
      if t in picked {
        PickedRow(s, node, now, picked, t);
      }
    }
  }

  lemma ClaimKeepsCycle(t: Task, node: Id, agent: Id, now: int)
    requires CycleOk(t)
    ensures CycleOk(SweepTask(t, node, now))
    ensures SweepTask(t, node, now).status == TaskPending ==> CycleOk(ClaimTask(SweepTask(t, node, now), agent, now))
  {
  }

  lemma SettleKeepsInv(s: State, t: Id, ok: bool)
    requires Inv(s) && t in s.tasks && s.tasks[t].instance in s.instances && s.tasks[t].instance != NO_ID
    ensures Inv(Settle(s, t, s.tasks[t].kind, ok, s.tasks[t].instance))
  {
    var kind, instance := s.tasks[t].kind, s.tasks[t].instance;
    var r := Settle(s, t, kind, ok, instance);
    SettleRows(s, t, kind, ok, instance);
    ShapeKeepsClosed(s, r);
    ShapeKeepsOneStartTask(s, r);
    SettleKeepsLeases(s.leases, r.leases, kind, ok, instance);
    assert LifeCycle(r.tasks) by {
      assert CycleOk(s.tasks[t]);
    }
    assert Issued(r) by {
      assert forall k | 0 <= k < |r.history| :: k < |s.history| || r.history[k] in OutcomeOf(kind, ok, instance);
    }
  }

  lemma SettleKeepsLeases(leases: map<Id, Lease>, after: map<Id, Lease>, kind: TaskKind, ok: bool, instance: Id)
    requires GpuExclusive(leases) && NeverExpires(leases) && after.Keys == leases.Keys
    requires forall l | l in leases :: after[l] == if leases[l].instance == instance then LeaseAfterResult(kind, ok, leases[l]) else leases[l]
    ensures GpuExclusive(after) && NeverExpires(after)
  {
    assert forall l | l in leases :: after[l].gpu == leases[l].gpu && (Holds(after[l]) ==> Holds(leases[l]));
  }

  lemma StartKeepsInv(s: State, d: Id, node: Id, gpus: map<Id, Id>, instance: Id, plan: Id, group: Id, task: Id, now: int, r: State)
    requires Inv(s) && Started(s, d, node, gpus, instance, plan, group, task, now, r) && !IndexRefuses(s, gpus)
    ensures Inv(r)
  {
    StartKeepsIssued(s, d, node, gpus, instance, plan, group, task, now, r);
    StartKeepsClosed(s, d, node, gpus, instance, plan, group, task, now, r);
    assert OneStartTask(r.tasks) by {
      assert forall t | t in s.tasks :: BelongsTo(s.instances, s.deployments.Keys, s.tasks[t].instance, s.tasks[t].deployment);
    }
    StartKeepsLeases(s, gpus, node, d, instance, r.leases);
    assert LifeCycle(r.tasks);
  }

  lemma StartKeepsClosed(s: State, d: Id, node: Id, gpus: map<Id, Id>, instance: Id, plan: Id, group: Id, task: Id, now: int, r: State)
    requires Closed(s) && Started(s, d, node, gpus, instance, plan, group, task, now, r)
    ensures Closed(r)
  {
    assert BelongsTo(r.instances, r.deployments.Keys, instance, d);
    forall i, e | BelongsTo(s.instances, s.deployments.Keys, i, e) ensures BelongsTo(r.instances, r.deployments.Keys, i, e) {
    }
  }

  lemma StartKeepsIssued(s: State, d: Id, node: Id, gpus: map<Id, Id>, instance: Id, plan: Id, group: Id, task: Id, now: int, r: State)
    requires Issued(s) && Started(s, d, node, gpus, instance, plan, group, task, now, r)
    ensures Issued(r)
  {
  }

  lemma StartKeepsLeases(s: State, gpus: map<Id, Id>, node: Id, d: Id, instance: Id, after: map<Id, Lease>)
    requires GpuExclusive(s.leases) && NeverExpires(s.leases) && !IndexRefuses(s, gpus)
    requires after.Keys == s.leases.Keys + gpus.Keys && s.leases.Keys !! gpus.Keys
    requires forall l | l in s.leases :: after[l] == s.leases[l]
    requires forall l | l in gpus :: after[l] == Lease(gpus[l], node, d, instance, LeaseReserved, None)
    ensures GpuExclusive(after) && NeverExpires(after)
  {
    assert forall l | l in gpus :: !GpuHeld(s, gpus[l]);
  }

  lemma InsertTaskKeepsInv(s: State, r: State, t: Id, kind: TaskKind, d: Id, i: Id, node: Id, now: int, timeout: int)
    requires Inv(s) && t !in s.issued && kind != StartTask && i in s.instances && s.instances[i].deployment == d
    requires r.tasks == s.tasks[t := NewTask(kind, d, i, node, now, timeout)] && r.issued == s.issued + {t}
    requires FailsOrStops(s.instances, r.instances)
    requires r.(tasks := s.tasks, issued := s.issued, instances := s.instances) == s
    ensures Inv(r)
  {
    assert r.deployments == s.deployments && r.plans == s.plans && r.groups == s.groups && r.leases == s.leases && r.history == s.history;
    assert Closed(r);
  }

  ghost predicate FailsOrStops(instances: map<Id, Instance>, after: map<Id, Instance>) {
    after.Keys == instances.Keys
    && forall i | i in instances :: after[i].deployment == instances[i].deployment && after[i].node == instances[i].node
  }

  lemma DeleteKeepsInv(s: State, d: Id)
    requires Inv(s)
    ensures Inv(DeleteStep(s, d))
  {
    if d in s.deployments {
      var r := DeleteStep(s, d);
      assert Issued(r);
      DeleteKeepsClosed(s, d);
      assert OneStartTask(r.tasks);
      assert GpuExclusive(r.leases);
    }
  }

  lemma DeleteKeepsClosed(s: State, d: Id)
    requires Closed(s)
    ensures Closed(DeleteStep(s, d))
  {
  }

  lemma MarkStopping(s: State, d: Id, i: Id, node: Id, task: Id, now: int)
    requires Inv(s) && d in s.deployments && i in s.instances
    ensures Inv(DispatchStopStep(s, d, i, node, false, task, now))
  {
    var r := DispatchStopStep(s, d, i, node, false, task, now);
    assert SameShape(s, r);
    ShapeKeepsClosed(s, r);
  }

  lemma DispatchKeepsInv(s: State, e: Event)
    requires Inv(s) && Allowed(s, e) && e.DispatchStop?
    ensures Inv(Apply(s, e))
  {
    if e.online {
      InsertTaskKeepsInv(s, Apply(s, e), e.task, StopTask, e.deployment, e.instance, e.node, e.now, STOP_TIMEOUT);
    } else {
      MarkStopping(s, e.deployment, e.instance, e.node, e.task, e.now);
    }
  }

  lemma InvStep(s: State, e: Event)
    requires Inv(s) && Allowed(s, e)
    ensures Inv(Apply(s, e))
  {
    match e
    case DispatchStop(_, _, _, _, _, _) => DispatchKeepsInv(s, e);
    case RequestLogs(plan, task, now) =>
      if LogsAccepted(s, plan) {
        var p := s.plans[plan];
        InsertTaskKeepsInv(s, Apply(s, e), task, LogsTask, p.deployment, p.instance, s.instances[p.instance].node, now, LOGS_TIMEOUT);
      }
    case Delete(d) => DeleteKeepsInv(s, d);
    case CreateDeployment(_) => DeploymentsOnlyKeepsInv(s, Apply(s, e));
    case FinishStop(_) => DeploymentsOnlyKeepsInv(s, Apply(s, e));
    case RegisterNode(_, _) => NodesOnlyKeepsInv(s, Apply(s, e));
    case MarkOffline(_) => NodesOnlyKeepsInv(s, Apply(s, e));
    case ReportResources(_, _, _) => NodesOnlyKeepsInv(s, Apply(s, e));
    case _ => AgentOrStartKeepsInv(s, e);
  }

  lemma AgentOrStartKeepsInv(s: State, e: Event)
    requires Inv(s) && Allowed(s, e) && (e.Heartbeat? || e.TaskResult? || e.Start?)
    ensures Inv(Apply(s, e))
  {
    match e
    case Heartbeat(node, agent, now, picked, _) =>
      if HeartbeatAccepted(s, node, agent) {
        HeartbeatKeepsInv(s, node, agent, now, picked);
      }
    case TaskResult(t, report, now) =>
      if ResultAccepted(s, t, report) {
        ResultSettles(s, t, report, now);
        SettleKeepsInv(s, t, VerdictOf(report) == Succeeded);
      }
    case Start(d, node, gpus, preflight, instance, plan, group, task, now) =>
      if StartAccepted(s, d, preflight, gpus) {
        StartRows(s, d, node, gpus, instance, plan, group, task, now);
        StartKeepsInv(s, d, node, gpus, instance, plan, group, task, now, Apply(s, e));
      }
  }

  /** The event writes nodes and deployments only. */
  predicate SparesRows(e: Event) {
    e.RegisterNode? || e.MarkOffline? || e.ReportResources? || e.CreateDeployment? || e.FinishStop?
  }

  lemma RowsAreSpared(s: State, e: Event)
    requires SparesRows(e)
    ensures var r := Apply(s, e);
      && r.instances == s.instances && r.plans == s.plans && r.groups == s.groups && r.leases == s.leases && r.tasks == s.tasks
      && r.history == s.history && s.issued <= r.issued
  {
  }

  lemma NodesOnlyKeepsInv(s: State, r: State)
    requires Inv(s) && r == s.(nodes := r.nodes)
    ensures Inv(r)
  {
  }

  lemma DeploymentsOnlyKeepsInv(s: State, r: State)
    requires Inv(s) && r == s.(deployments := r.deployments, issued := r.issued)
    requires s.issued <= r.issued && s.deployments.Keys <= r.deployments.Keys <= r.issued
    ensures Inv(r)
  {
  }

  lemma {:induction false} InvRun(s: State, events: seq<Event>)
    requires Inv(s) && Legal(s, events)
    ensures Inv(Run(s, events))
    decreases |events|
  {
    if events != [] {
      InvStep(s, events[0]);
      InvRun(Apply(s, events[0]), events[1..]);
    }
  }

  /** Every state reached from the empty database satisfies every invariant above. */
  lemma ReachableInv(events: seq<Event>)
    requires Legal(Initial, events)
    ensures Inv(Run(Initial, events))
  {
    InvRun(Initial, events);
  }
}
