/**
 What each handler of the control plane does, told by the rows before and after and the words of the
 schema alone: when it is refused, which rows it adds, changes or removes, and that the rest stays.
 */
module Outcomes {
  import opened Collections
  import opened Results
  import opened Protocol
  import opened ProtocolInvariants
  import opened SingleActive
  import opened SweepAndClaim

  // ------------------------------------------------------------------------------------------
  // Start
  // ------------------------------------------------------------------------------------------

  /** No instance of the deployment is active, and no start or stop of it waits to be claimed or is in progress. */
  ghost predicate AtRest(s: State, d: Id) {
    && (forall i | i in s.instances && s.instances[i].deployment == d :: !Active(s.instances[i]))
    && (forall t | t in s.tasks && s.tasks[t].deployment == d && (s.tasks[t].kind == StartTask || s.tasks[t].kind == StopTask)
          :: s.tasks[t].status != TaskPending && s.tasks[t].status != TaskInProgress)
  }

  function ReservedRows(d: Id, node: Id, gpus: map<Id, Id>, instance: Id): map<Id, Lease> {
    map l | l in gpus :: Lease(gpus[l], node, d, instance, LeaseReserved, None)
  }

  lemma StartBlockedIff(s: State, d: Id)
    ensures StartBlocked(s, d) <==> !AtRest(s, d)
  {
  }

  /** The index refuses the rows of a start exactly when a GPU would have two holders with them. */
  lemma IndexRefusesIff(s: State, gpus: map<Id, Id>, rows: map<Id, Lease>)
    requires GpuExclusive(s.leases) && s.leases.Keys !! gpus.Keys && rows.Keys == gpus.Keys
    requires forall l | l in gpus :: rows[l].gpu == gpus[l] && rows[l].status == LeaseReserved
    ensures IndexRefuses(s, gpus) <==> !GpuExclusive(s.leases + rows)
  {
    var all := s.leases + rows;
    if l :| l in gpus && GpuHeld(s, gpus[l]) {
      var h :| h in s.leases && s.leases[h].gpu == gpus[l] && Holds(s.leases[h]);
      assert all[h] == s.leases[h] && all[l] == rows[l];
    }
    if l, m :| l in gpus && m in gpus && l != m && gpus[l] == gpus[m] {
      assert all[l] == rows[l] && all[m] == rows[m];
    }
    if !IndexRefuses(s, gpus) {
      forall l, m | l in all && m in all && l != m && Occupies(all[l]) && Occupies(all[m])
        ensures all[l].gpu != all[m].gpu
      {
        assert l in gpus ==> !GpuHeld(s, gpus[l]);
        assert m in gpus ==> !GpuHeld(s, gpus[m]);
      }
    }
  }

  /** A start is refused as long as an instance of the deployment has neither stopped nor failed. */
  lemma ActiveRefusesStart(s: State, e: Event, i: Id)
    requires e.Start? && i in s.instances && s.instances[i].deployment == e.deployment && Active(s.instances[i])
    ensures !StartAccepted(s, e.deployment, e.preflight, e.gpus) && Apply(s, e) == s
  {
    StartBlockedIff(s, e.deployment);
  }

  /**
   A start goes through exactly when the deployment exists and is at rest, the checks of the request
   passed, and no GPU gets a second holder; it then adds its rows and changes no other but the deployment's.
   */
  lemma StartOutcome(s: State, e: Event)
    requires Inv(s) && Allowed(s, e) && e.Start?
    ensures var d, rows := e.deployment, ReservedRows(e.deployment, e.node, e.gpus, e.instance);
      Apply(s, e) ==
        if d in s.deployments && AtRest(s, d) && e.preflight && GpuExclusive(s.leases + rows) then
          s.(instances := s.instances[e.instance := Instance(d, e.node, InstancePending, true)],
             plans := s.plans[e.plan := Plan(d, e.instance)], groups := s.groups[e.group := d], leases := s.leases + rows,
             tasks := s.tasks[e.task := Task(StartTask, TaskPending, d, e.instance, e.node, e.now, 300, NO_ID, NO_ID, None, 0, 1, 0)],
             deployments := s.deployments[d := Deployment(true, DeploymentRunning)],
             issued := s.issued + {e.instance, e.plan, e.group, e.task} + e.gpus.Keys)
        else s
    ensures StartAccepted(s, e.deployment, e.preflight, e.gpus) <==>
            e.deployment in s.deployments && AtRest(s, e.deployment) && e.preflight
            && GpuExclusive(s.leases + ReservedRows(e.deployment, e.node, e.gpus, e.instance))
  {
    StartBlockedIff(s, e.deployment);
    IndexRefusesIff(s, e.gpus, ReservedRows(e.deployment, e.node, e.gpus, e.instance));
  }

  // ------------------------------------------------------------------------------------------
  // Task result
  // ------------------------------------------------------------------------------------------

  /** What the agent says of the error: error_message if it is there, and otherwise error. */
  predicate NoError(r: Report) {
    if r.errorMessage.Some? then r.errorMessage.value == "" else r.error == None || r.error.value == ""
  }

  /** The agent says that the task was done. */
  predicate ReportsSuccess(r: Report) {
    && (r.status == None || r.status.value == WordCompleted || r.status.value == WordSuccess)
    && (r.success == None || r.success.value) && NoError(r)
  }

  /** The task is open, the report is not another agent's than the one it was handed to, and says how it went. */
  predicate Counts(s: State, t: Id, r: Report) {
    && t in s.tasks && s.tasks[t].status != TaskCompleted && s.tasks[t].status != TaskFailed && s.tasks[t].status != TaskTimedOut
    && (s.tasks[t].leaseOwner == NO_ID || r.agentId == None || r.agentId.value == NO_ID || r.agentId.value == s.tasks[t].leaseOwner)
    && (r.status.Some? ==> r.status.value != OtherWord)
  }

  lemma VerdictIs(r: Report)
    ensures VerdictOf(r) == Succeeded <==> ReportsSuccess(r)
    ensures VerdictOf(r) == Unrecognised <==> r.status == Some(OtherWord)
  {
  }

  /** The instance is running after a start that was done, stopped and unwanted after a stop that was, failed otherwise. */
  ghost predicate InstanceTold(kind: TaskKind, done: bool, i: Instance, j: Instance) {
    && j.deployment == i.deployment && j.node == i.node
    && match kind
       case LogsTask => j == i
       case StartTask => j.desiredRunning == i.desiredRunning && j.actual == (if done then InstanceRunning else InstanceFailed)
       case StopTask => if done then j.actual == InstanceStopped && !j.desiredRunning
                        else j.actual == InstanceFailed && j.desiredRunning == i.desiredRunning
  }

  /** A start makes reserved leases active or failed; a stop that was done releases those held. */
  ghost predicate LeaseTold(kind: TaskKind, done: bool, l: Lease, m: Lease) {
    && m == l.(status := m.status)
    && match kind
       case LogsTask => m.status == l.status
       case StartTask => m.status == if l.status != LeaseReserved then l.status else if done then LeaseActive else LeaseFailed
       case StopTask => m.status == if done && l.status != LeaseFailed then LeaseReleased else l.status
  }

  ghost predicate ResultTold(s: State, r: State, t: Id, done: bool, i: Id)
    requires t in s.tasks
  {
    && r.tasks == s.tasks[t := s.tasks[t].(status := if done then TaskCompleted else TaskFailed)]
    && r.instances.Keys == s.instances.Keys && r.leases.Keys == s.leases.Keys
    && (forall j | j in s.instances :: if j == i then InstanceTold(s.tasks[t].kind, done, s.instances[j], r.instances[j])
                                       else r.instances[j] == s.instances[j])
    && (forall l | l in s.leases :: if s.leases[l].instance == i && i != NO_ID then LeaseTold(s.tasks[t].kind, done, s.leases[l], r.leases[l])
                                    else r.leases[l] == s.leases[l])
    && r.nodes == s.nodes && r.deployments == s.deployments && r.plans == s.plans && r.groups == s.groups && r.issued == s.issued
  }

  /**
   A report that counts completes the task exactly when it says the task was done, and fails it otherwise;
   the instance of the task, or failing that of the report, and its leases follow. Others change nothing.
   */
  lemma ResultOutcome(s: State, t: Id, report: Report, now: int)
    requires NO_ID !in s.instances
    ensures var r := Apply(s, TaskResult(t, report, now));
      if Counts(s, t, report) then
        var i := if s.tasks[t].instance != NO_ID then s.tasks[t].instance else report.instanceId.GetOr(NO_ID);
        ResultTold(s, r, t, ReportsSuccess(report), i)
      else r == s
  {
    VerdictIs(report);
    if Counts(s, t, report) {
      var i := if s.tasks[t].instance != NO_ID then s.tasks[t].instance else report.instanceId.GetOr(NO_ID);
      SettleIsTold(s, t, ReportsSuccess(report), i);
    }
  }

  lemma SettleIsTold(s: State, t: Id, done: bool, i: Id)
    requires t in s.tasks && NO_ID !in s.instances
    ensures ResultTold(s, Settle(s, t, s.tasks[t].kind, done, i), t, done, i)
  {
    var kind := s.tasks[t].kind;
    var r := Settle(s, t, kind, done, i);
    forall j | j in s.instances
      ensures if j == i then InstanceTold(kind, done, s.instances[j], r.instances[j]) else r.instances[j] == s.instances[j]
    {
    }
    forall l | l in s.leases
      ensures if s.leases[l].instance == i && i != NO_ID then LeaseTold(kind, done, s.leases[l], r.leases[l]) else r.leases[l] == s.leases[l]
    {
    }
  }

  // ------------------------------------------------------------------------------------------
  // Delete
  // ------------------------------------------------------------------------------------------

  /** A delete removes the deployment and every row of it, and touches no row of another one. */
  lemma DeleteOutcome(s: State, d: Id)
    ensures var r := Apply(s, Delete(d));
      if d in s.deployments then
        && r.deployments.Keys == s.deployments.Keys - {d} && (forall e | e in r.deployments :: r.deployments[e] == s.deployments[e])
        && (forall i :: i in r.instances <==> i in s.instances && s.instances[i].deployment != d)
        && (forall i | i in r.instances :: r.instances[i] == s.instances[i])
        && (forall p :: p in r.plans <==> p in s.plans && s.plans[p].deployment != d) && (forall p | p in r.plans :: r.plans[p] == s.plans[p])
        && (forall g :: g in r.groups <==> g in s.groups && s.groups[g] != d) && (forall g | g in r.groups :: r.groups[g] == s.groups[g])
        && (forall l :: l in r.leases <==> l in s.leases && s.leases[l].deployment != d) && (forall l | l in r.leases :: r.leases[l] == s.leases[l])
        && (forall t :: t in r.tasks <==> t in s.tasks && s.tasks[t].deployment != d) && (forall t | t in r.tasks :: r.tasks[t] == s.tasks[t])
        && r.nodes == s.nodes && r.issued == s.issued && r.history == s.history
      else r == s
  {
  }

  // ------------------------------------------------------------------------------------------
  // Heartbeat
  // ------------------------------------------------------------------------------------------

  /** The node is known, and bound to no agent or to this one. */
  predicate Speaks(s: State, e: Event)
    requires e.Heartbeat?
  {
    e.node in s.nodes && (s.nodes[e.node].agent == NO_ID || s.nodes[e.node].agent == e.agent)
  }

  predicate Open(t: Task) {
    t.status != TaskCompleted && t.status != TaskFailed && t.status != TaskTimedOut
  }

  /** A task of the node that waits and is still within its timeout. */
  predicate Claimable(t: Task, node: Id, now: int) {
    t.node == node && t.status == TaskPending && now <= t.createdAt + t.timeout
  }

  ghost function ClaimableTasks(s: State, e: Event): set<Id>
    requires e.Heartbeat?
  {
    set t | t in s.tasks && Claimable(s.tasks[t], e.node, e.now)
  }

  /** What a heartbeat makes of a row: claimed by the agent, timed out, or as it was. */
  ghost predicate TaskBeaten(e: Event, t: Id, a: Task, z: Task)
    requires e.Heartbeat?
  {
    if t in e.picked then
      Claimable(a, e.node, e.now)
      && z == Task(a.kind, TaskClaimed, a.deployment, a.instance, a.node, a.createdAt, a.timeout, e.agent, e.agent, Some(e.now),
                   a.generation + 1, a.attempt + 1, a.retryCount + 1)
    else if a.node == e.node && Open(a) && e.now > a.createdAt + a.timeout then z == a.(status := TaskTimedOut)
    else z == a
  }

  lemma BeatenRows(s: State, e: Event)
    requires Inv(s) && Allowed(s, e) && e.Heartbeat? && HeartbeatAccepted(s, e.node, e.agent)
    ensures Apply(s, e).tasks.Keys == s.tasks.Keys && forall t | t in s.tasks :: TaskBeaten(e, t, s.tasks[t], Apply(s, e).tasks[t])
  {
    HeartbeatRows(s, e.node, e.agent, e.now, e.picked);
    forall t | t in s.tasks
      ensures TaskBeaten(e, t, s.tasks[t], Apply(s, e).tasks[t])
    {
      if t in e.picked {
        PickedRow(s, e.node, e.now, e.picked, t);
      }
    }
  }

  lemma ClaimableAre(s: State, node: Id, now: int, t: Id)
    requires NeverExpires(s.leases) && node in s.nodes && t in s.tasks
    ensures t in Swept(s, node, now).tasks && t in PendingOn(Swept(s, node, now).tasks, node) <==> Claimable(s.tasks[t], node, now)
    ensures t in Swept(s, node, now).tasks && Swept(s, node, now).tasks[t].createdAt == s.tasks[t].createdAt
  {
    SweepRows(MarkOnline(s, node), node, now);
  }

  /** Ten at most, each once, none of them newer than one left waiting; and one waits only if ten were taken. */
  ghost predicate OldestTaken(tasks: map<Id, Task>, candidates: set<Id>, taken: seq<Id>)
    requires candidates <= tasks.Keys
  {
    && |taken| <= 10 && (forall k | 0 <= k < |taken| :: taken[k] in candidates)
    && (forall j, k | 0 <= j < k < |taken| :: taken[j] != taken[k] && tasks[taken[j]].createdAt <= tasks[taken[k]].createdAt)
    && (forall c | c in candidates && c !in taken :: |taken| == 10 && forall k | 0 <= k < 10 :: tasks[taken[k]].createdAt <= tasks[c].createdAt)
  }

  lemma TakenAre(s: State, e: Event)
    requires Inv(s) && Allowed(s, e) && e.Heartbeat? && HeartbeatAccepted(s, e.node, e.agent)
    ensures OldestTaken(s.tasks, ClaimableTasks(s, e), e.picked)
  {
    var swept := Swept(s, e.node, e.now);
    SweepRows(MarkOnline(s, e.node), e.node, e.now);
    forall t | t in s.tasks
      ensures t in PendingOn(swept.tasks, e.node) <==> Claimable(s.tasks[t], e.node, e.now)
      ensures t in swept.tasks && swept.tasks[t].createdAt == s.tasks[t].createdAt
    {
      ClaimableAre(s, e.node, e.now, t);
    }
    assert FirstTen(swept.tasks, PendingOn(swept.tasks, e.node), e.picked);
  }

  /** The rows the agent is handed: claimed by it, for this node, under this timestamp. */
  predicate HandedTo(t: Task, node: Id, agent: Id, now: int) {
    t.status == TaskClaimed && t.node == node && t.agent == agent && t.claimedAt == Some(now)
  }

  ghost function HandedTasks(tasks: map<Id, Task>, e: Event): set<Id>
    requires e.Heartbeat?
  {
    set t | t in tasks && HandedTo(tasks[t], e.node, e.agent, e.now)
  }

  /** A deployment fails with any of its instances; nothing else of a deployment changes. */
  ghost predicate DeploymentsBeaten(s: State, r: State) {
    && r.deployments.Keys == s.deployments.Keys
    && forall d | d in s.deployments :: r.deployments[d] ==
         if exists i :: i in r.instances && r.instances[i].deployment == d && r.instances[i].actual == InstanceFailed
         then s.deployments[d].(status := DeploymentFailed) else s.deployments[d]
  }

  lemma BeatenDeployments(s: State, node: Id, now: int)
    ensures var r := Sweep(s, node, now); DeploymentsBeaten(s, r)
  {
    var r := Sweep(s, node, now);
    forall d | d in s.deployments
      ensures OwnsFailure(r.instances, d) <==> exists i :: i in r.instances && r.instances[i].deployment == d && r.instances[i].actual == InstanceFailed
    {
    }
  }

  ghost predicate TimedOutFor(tasks: map<Id, Task>, node: Id, i: Id) {
    exists t | t in tasks :: tasks[t].node == node && tasks[t].instance == i && tasks[t].status == TaskTimedOut
  }

  /** An instance fails with any task of the node that timed out, now or before; no other is touched. */
  ghost predicate InstancesBeaten(s: State, r: State, node: Id) {
    && r.instances.Keys == s.instances.Keys
    && forall i | i in s.instances ::
         r.instances[i] == if TimedOutFor(r.tasks, node, i) then s.instances[i].(actual := InstanceFailed) else s.instances[i]
  }

  lemma TimedOutAfter(s: State, e: Event, after: map<Id, Task>, i: Id)
    requires e.Heartbeat? && after.Keys == s.tasks.Keys && forall t | t in s.tasks :: TaskBeaten(e, t, s.tasks[t], after[t])
    ensures TimesOutFor(s, e.node, e.now, i) <==> TimedOutFor(after, e.node, i)
  {
    forall t | t in s.tasks
      ensures SweepTask(s.tasks[t], e.node, e.now).status == TaskTimedOut <==> after[t].status == TaskTimedOut
      ensures after[t].node == s.tasks[t].node && after[t].instance == s.tasks[t].instance
    {
      assert TaskBeaten(e, t, s.tasks[t], after[t]);
    }
  }

  lemma BeatenInstances(s: State, e: Event)
    requires Inv(s) && Allowed(s, e) && e.Heartbeat? && HeartbeatAccepted(s, e.node, e.agent)
    ensures InstancesBeaten(s, Apply(s, e), e.node)
  {
    HeartbeatRows(s, e.node, e.agent, e.now, e.picked);
    BeatenRows(s, e);
    forall i | i in s.instances
      ensures Apply(s, e).instances[i] ==
              if TimedOutFor(Apply(s, e).tasks, e.node, i) then s.instances[i].(actual := InstanceFailed) else s.instances[i]
    {
      BeatFailsIff(s, e, i);
      TimedOutAfter(s, e, Apply(s, e).tasks, i);
    }
  }

  /**
   A heartbeat of another agent changes nothing. Any other puts the node online, times out what is overdue
   on it, claims the ten oldest tasks that wait, hands over what it finds claimed under its timestamp, and
   fails the instances named by a timeout with their deployments.
   */
  lemma BeatOutcome(s: State, e: Event)
    requires Inv(s) && Allowed(s, e) && e.Heartbeat?
    ensures var r := Apply(s, e);
      if Speaks(s, e) then
        && r.nodes == s.nodes[e.node := Node(s.nodes[e.node].agent, true)]
        && r.tasks.Keys == s.tasks.Keys && (forall t | t in s.tasks :: TaskBeaten(e, t, s.tasks[t], r.tasks[t]))
        && OldestTaken(s.tasks, ClaimableTasks(s, e), e.picked)
        && OldestTaken(r.tasks, HandedTasks(r.tasks, e), e.returned)
        && InstancesBeaten(s, r, e.node) && DeploymentsBeaten(s, r)
        && r.leases == s.leases && r.plans == s.plans && r.groups == s.groups && r.issued == s.issued && r.history == s.history
      else r == s && e.picked == [] && e.returned == []
  {
    assert Speaks(s, e) <==> HeartbeatAccepted(s, e.node, e.agent);
    if Speaks(s, e) {
      BeatenRows(s, e);
      TakenAre(s, e);
      HandedAre(s, e);
      BeatenInstances(s, e);
      BeatenDeployments(MarkOnline(s, e.node), e.node, e.now);
      HeartbeatRows(s, e.node, e.agent, e.now, e.picked);
      SweepRows(MarkOnline(s, e.node), e.node, e.now);
    }
  }

  lemma HandedAreClaimed(tasks: map<Id, Task>, e: Event)
    requires e.Heartbeat?
    ensures ClaimedAt(tasks, e.node, e.agent, e.now) == HandedTasks(tasks, e)
  {
    forall t | t in tasks
      ensures t in ClaimedAt(tasks, e.node, e.agent, e.now) <==> t in HandedTasks(tasks, e)
    {
    }
    assert (forall t :: t in ClaimedAt(tasks, e.node, e.agent, e.now) <==> t in HandedTasks(tasks, e))
      ==> ClaimedAt(tasks, e.node, e.agent, e.now) == HandedTasks(tasks, e);
  }

  lemma HandedAre(s: State, e: Event)
    requires Inv(s) && Allowed(s, e) && e.Heartbeat? && HeartbeatAccepted(s, e.node, e.agent)
    ensures var after := Apply(s, e).tasks;
      OldestTaken(after, HandedTasks(after, e), e.returned)
  {
    var after := Apply(s, e).tasks;
    HandedAreClaimed(after, e);
    assert FirstTen(after, ClaimedAt(after, e.node, e.agent, e.now), e.returned);
  }

  // ------------------------------------------------------------------------------------------
  // The other handlers
  // ------------------------------------------------------------------------------------------

  /** Registering binds a node to its first agent, or again to the same one, and puts it online. */
  lemma RegisterOutcome(s: State, node: Id, agent: Id)
    ensures var r := Apply(s, RegisterNode(node, agent));
      if node != NO_ID && (node in s.nodes && s.nodes[node].agent != NO_ID ==> s.nodes[node].agent == agent)
      then r == s.(nodes := s.nodes[node := Node(agent, true)]) else r == s
  {
  }

  /** Only nodes change, and of them only whether they are online. */
  ghost predicate OnlineOnly(s: State, r: State) {
    r == s.(nodes := r.nodes) && r.nodes.Keys == s.nodes.Keys && forall n | n in s.nodes :: r.nodes[n].agent == s.nodes[n].agent
  }

  /** Stale nodes go offline; a system snapshot of a node's own agent puts that node online. */
  lemma NodesOutcome(s: State, stale: set<Id>, node: Id, agent: Id, system: bool)
    ensures var r := Apply(s, MarkOffline(stale));
      OnlineOnly(s, r) && forall n | n in s.nodes :: r.nodes[n].online <==> s.nodes[n].online && n !in stale
    ensures var r := Apply(s, ReportResources(node, agent, system));
      OnlineOnly(s, r) && forall n | n in s.nodes ::
        r.nodes[n].online <==> s.nodes[n].online || (n == node && system && agent != NO_ID && agent == s.nodes[n].agent)
  {
  }

  /** A request for logs adds one task, for the node of the plan's instance, while that node is online. */
  lemma LogsOutcome(s: State, plan: Id, task: Id, now: int)
    ensures var r := Apply(s, RequestLogs(plan, task, now));
      if plan in s.plans && s.plans[plan].instance in s.instances
         && (exists n :: n in s.nodes && n == s.instances[s.plans[plan].instance].node && s.nodes[n].online) then
        var p := s.plans[plan];
        r == s.(issued := s.issued + {task},
          tasks := s.tasks[task := Task(LogsTask, TaskPending, p.deployment, p.instance, s.instances[p.instance].node, now, 30, NO_ID, NO_ID, None, 0, 1, 0)])
      else r == s
  {
  }
}
