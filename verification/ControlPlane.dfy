/**
 The handlers themselves, as methods that run their SQL statements one after the other on the
 tables. Each is proved to leave the state the protocol says, or to be a legal run of its events.
 */
module ControlPlaneServer {
  import opened Collections
  import opened Results
  import opened Protocol
  import opened ProtocolInvariants

  /** ORDER BY created_at ASC LIMIT 1. */
  method Oldest(tasks: map<Id, Task>, rows: set<Id>) returns (oldest: Id)
    requires rows != {} && rows <= tasks.Keys
    ensures oldest in rows && forall r | r in rows :: tasks[oldest].createdAt <= tasks[r].createdAt
  {
    NonEmpty(rows);
    oldest :| oldest in rows;
    var rest := rows - {oldest};
    while rest != {}
      invariant rest <= rows && oldest in rows
      invariant forall r | r in rows && r !in rest :: tasks[oldest].createdAt <= tasks[r].createdAt
      decreases rest
    {
      NonEmpty(rest);
      var r :| r in rest;
      if tasks[r].createdAt < tasks[oldest].createdAt {
        oldest := r;
      }
      rest := rest - {r};
    }
  }

  /** ORDER BY created_at ASC LIMIT 10. */
  method OldestTen(tasks: map<Id, Task>, candidates: set<Id>) returns (rows: seq<Id>)
    requires candidates <= tasks.Keys
    ensures FirstTen(tasks, candidates, rows)
  {
    rows := [];
    var left := candidates;
    while left != {} && |rows| < MAX_CLAIM
      invariant left <= candidates && |rows| <= MAX_CLAIM
      invariant forall k | 0 <= k < |rows| :: rows[k] in candidates && rows[k] !in left
      invariant forall c | c in candidates :: c in left || c in rows
      invariant forall j, k | 0 <= j < k < |rows| :: rows[j] != rows[k] && tasks[rows[j]].createdAt <= tasks[rows[k]].createdAt
      invariant forall k, c | 0 <= k < |rows| && c in left :: tasks[rows[k]].createdAt <= tasks[c].createdAt
      decreases left
    {
      var next := Oldest(tasks, left);
      rows := rows + [next];
      left := left - {next};
    }
  }

  ghost predicate DistinctIds(ids: seq<Id>) {
    forall j, k | 0 <= j < |ids| && 0 <= k < |ids| && j != k :: ids[j] != ids[k]
  }

  class ControlPlane {
    var nodes: map<Id, Node>
    var deployments: map<Id, Deployment>
    var instances: map<Id, Instance>
    var plans: map<Id, Plan>
    var groups: map<Id, Id>
    var leases: map<Id, Lease>
    var tasks: map<Id, Task>
    ghost var issued: set<Id>
    ghost var history: seq<Outcome>

    ghost function Model(): State
      reads this
    {
      State(nodes, deployments, instances, plans, groups, leases, tasks, issued, history)
    }

    constructor ()
      ensures Model() == Initial
    {
      nodes, deployments, instances, plans, groups, leases, tasks := map[], map[], map[], map[], map[], map[], map[];
      issued, history := {NO_ID}, [];
    }

    method HandleRegister(node: Id, agent: Id) returns (ok: bool)
      modifies this
      ensures Model() == Apply(old(Model()), RegisterNode(node, agent))
    {
      if node == NO_ID {
        return false;
      }
      if node !in nodes {
        nodes := nodes[node := Node(agent, true)];
        return true;
      }
      if nodes[node].agent != NO_ID && nodes[node].agent != agent {
        return false;
      }
      nodes := nodes[node := Node(agent, true)];
      ok := true;
    }

    method MarkOfflineNodes(stale: set<Id>)
      modifies this
      ensures Model() == Apply(old(Model()), MarkOffline(stale))
    {
      nodes := map n | n in nodes :: if n in stale then nodes[n].(online := false) else nodes[n];
    }

    /** A resource report comes from an agent; with a system snapshot it counts as a sign of life of its node. */
    method HandleResourceReport(agent: Id, system: bool) returns (ok: bool, ghost node: Id)
      modifies this
      ensures ok <==> agent != NO_ID && exists n :: n in old(nodes) && old(nodes)[n].agent == agent
      ensures ok ==> node in old(nodes) && old(nodes)[node].agent == agent
      ensures Model() == Apply(old(Model()), ReportResources(node, agent, system))
    {
      ok, node := false, NO_ID;
      if agent == NO_ID {
        return;
      }
      if n :| n in nodes && nodes[n].agent == agent {
        ok, node := true, n;
        if system {
          nodes := nodes[n := nodes[n].(online := true)];
        }
      }
    }

    method HandleCreateDeployment(d: Id)
      requires d !in issued
      modifies this
      ensures Model() == Apply(old(Model()), CreateDeployment(d))
    {
      deployments := deployments[d := Deployment(false, DeploymentSaved)];
      issued := issued + {d};
    }

    /** The sweep: four UPDATE statements. */
    method TimeOutTasks(node: Id, now: int)
      modifies this
      ensures Model() == SweepTasks(old(Model()), node, now)
    {
      tasks := map t | t in tasks :: SweepTask(tasks[t], node, now);
    }

    method FailInstances(node: Id)
      modifies this
      ensures Model() == FailTimedOutInstances(old(Model()), node)
    {
      instances := map i | i in instances ::
        if NamedByTimeout(tasks, node, i) then instances[i].(actual := InstanceFailed) else instances[i];
    }

    method FailLeases(now: int)
      modifies this
      ensures Model() == SweepLeases(old(Model()), now)
    {
      leases := map l | l in leases :: SweepLease(leases[l], now);
    }

    method FailOwners()
      modifies this
      ensures Model() == FailDeployments(old(Model()))
    {
      deployments := map d | d in deployments ::
        if OwnsFailure(instances, d) then deployments[d].(status := DeploymentFailed) else deployments[d];
    }

    /** Four UPDATE statements, in this order. */
    method SweepExpiredTasks(node: Id, now: int)
      modifies this
      ensures Model() == Sweep(old(Model()), node, now)
    {
      TimeOutTasks(node, now);
      FailInstances(node);
      FailLeases(now);
      FailOwners();
    }

    method HandleHeartbeat(node: Id, agent: Id, now: int) returns (accepted: bool, picked: seq<Id>, returned: seq<Id>)
      modifies this
      ensures accepted == HeartbeatAccepted(old(Model()), node, agent)
      ensures Allowed(old(Model()), Heartbeat(node, agent, now, picked, returned))
      ensures Model() == Apply(old(Model()), Heartbeat(node, agent, now, picked, returned))
    {
      if node !in nodes || (nodes[node].agent != NO_ID && nodes[node].agent != agent) {
        return false, [], [];
      }
      nodes := nodes[node := nodes[node].(online := true)];
      accepted, picked, returned := ClaimAndReturnTasks(node, agent, now);
    }

    method ClaimAndReturnTasks(node: Id, agent: Id, now: int) returns (done: bool, picked: seq<Id>, returned: seq<Id>)
      modifies this
      ensures done
      ensures var swept := Sweep(old(Model()), node, now);
        && FirstTen(swept.tasks, PendingOn(swept.tasks, node), picked)
        && Model() == Claim(swept, agent, now, picked)
        && FirstTen(Model().tasks, ClaimedAt(Model().tasks, node, agent, now), returned)
    {
      SweepExpiredTasks(node, now);
      picked := OldestTen(tasks, PendingOn(tasks, node));
      tasks := map t | t in tasks :: if t in picked then ClaimTask(tasks[t], agent, now) else tasks[t];
      returned := OldestTen(tasks, ClaimedAt(tasks, node, agent, now));
      done := true;
    }

    lemma ResultApplies(s: State, t: Id, report: Report, now: int)
      ensures Apply(s, TaskResult(t, report, now)) ==
              if ResultAccepted(s, t, report)
              then Settle(s, t, s.tasks[t].kind, VerdictOf(report) == Succeeded, ResultInstance(s.tasks[t], report)) else s
    {
    }

    method HandleTaskResult(t: Id, report: Report, now: int)
      modifies this
      ensures Model() == Apply(old(Model()), TaskResult(t, report, now))
    {
      ResultApplies(Model(), t, report, now);
      if t !in tasks {
        return;
      }
      var task := tasks[t];
      if task.status == TaskCompleted || task.status == TaskFailed || task.status == TaskTimedOut {
        return;
      }
      if task.leaseOwner != NO_ID {
        var agent := report.agentId.GetOr(NO_ID);
        if agent != NO_ID && task.leaseOwner != agent {
          return;
        }
      }
      var instance := task.instance;
      if instance == NO_ID {
        instance := report.instanceId.GetOr(NO_ID);
      }
      var ok := false;
      match report.status.GetOr(WordCompleted) {
        case WordCompleted | WordSuccess =>
          ok := report.success.GetOr(true) && report.errorMessage.GetOr(report.error.GetOr("")) == "";
        case WordFailed | WordError =>
        case OtherWord => return;
      }
      SettleTask(t, ok, instance);
    }

    method SettleTask(t: Id, ok: bool, instance: Id)
      requires t in tasks
      modifies this
      ensures Model() == Settle(old(Model()), t, old(tasks)[t].kind, ok, instance)
    {
      var kind := tasks[t].kind;
      tasks := tasks[t := tasks[t].(status := if ok then TaskCompleted else TaskFailed)];
      if instance != NO_ID {
        SettleInstance(kind, ok, instance);
      }
    }

    method SettleInstance(kind: TaskKind, ok: bool, instance: Id)
      modifies `instances, `leases, `history
      ensures instances == if instance in old(instances)
                           then old(instances)[instance := InstanceAfterResult(kind, ok, old(instances)[instance])] else old(instances)
      ensures leases == map l | l in old(leases) ::
                if old(leases)[l].instance == instance then LeaseAfterResult(kind, ok, old(leases)[l]) else old(leases)[l]
      ensures history == old(history) + OutcomeOf(kind, ok, instance)
    {
      history := history + OutcomeOf(kind, ok, instance);
      match kind
      case LogsTask =>
        assert instance in instances ==> instances[instance := instances[instance]] == instances;
      case StopTask =>
        if instance in instances {
          var i := instances[instance];
          instances := instances[instance := if ok then i.(actual := InstanceStopped, desiredRunning := false) else i.(actual := InstanceFailed)];
        }
        if ok {
          leases := map l | l in leases ::
            if leases[l].instance == instance && (leases[l].status == LeaseReserved || leases[l].status == LeaseActive)
            then leases[l].(status := LeaseReleased) else leases[l];
        }
      case StartTask =>
        if instance in instances {
          instances := instances[instance := instances[instance].(actual := if ok then InstanceRunning else InstanceFailed)];
        }
        leases := map l | l in leases ::
          if leases[l].instance == instance && leases[l].status == LeaseReserved
          then leases[l].(status := if ok then LeaseActive else LeaseFailed) else leases[l];
    }

    /**
     One transaction: every row is inserted, or a refused lease rolls all of it back. `gpus` maps the
     UUID generated for each lease to the accelerator it is for.
     */
    method HandleStart(d: Id, node: Id, gpus: map<Id, Id>, preflight: bool, instance: Id, plan: Id, group: Id, task: Id, now: int)
      returns (ok: bool)
      requires Issued(Model()) && ({instance, plan, group, task} + gpus.Keys) !! issued
      modifies this
      ensures ok == StartAccepted(old(Model()), d, preflight, gpus)
      ensures Model() == Apply(old(Model()), Start(d, node, gpus, preflight, instance, plan, group, task, now))
    {
      var blocked := ActiveDeploymentRun(d);
      if blocked || d !in deployments || !preflight {
        return false;
      }
      ok := InsertStartRows(d, node, gpus, instance, plan, group, task, now);
    }

    method InsertStartRows(d: Id, node: Id, gpus: map<Id, Id>, instance: Id, plan: Id, group: Id, task: Id, now: int)
      returns (ok: bool)
      requires gpus.Keys !! leases.Keys && d in deployments
      modifies this
      ensures ok == !IndexRefuses(old(Model()), gpus)
      ensures ok ==> Model() == InsertStart(old(Model()), d, node, gpus, instance, plan, group, task, now)
      ensures !ok ==> Model() == old(Model())
    {
      var before := leases;
      ok := InsertLeases(d, node, gpus, instance);
      if !ok {
        leases := before;
        assert Model() == old(Model());
        return;
      }
      InsertRest(d, node, gpus.Keys, instance, plan, group, task, now);
    }

    method InsertRest(d: Id, node: Id, ghost leaseIds: set<Id>, instance: Id, plan: Id, group: Id, task: Id, now: int)
      modifies `instances, `groups, `plans, `tasks, `deployments, `issued
      ensures instances == old(instances)[instance := Instance(d, node, InstancePending, true)]
      ensures groups == old(groups)[group := d] && plans == old(plans)[plan := Plan(d, instance)]
      ensures tasks == old(tasks)[task := NewTask(StartTask, d, instance, node, now, START_TIMEOUT)]
      ensures deployments == old(deployments)[d := Deployment(true, DeploymentRunning)]
      ensures issued == old(issued) + {instance, plan, group, task} + leaseIds
    {
      instances := instances[instance := Instance(d, node, InstancePending, true)];
      groups := groups[group := d];
      plans := plans[plan := Plan(d, instance)];
      tasks := tasks[task := NewTask(StartTask, d, instance, node, now, START_TIMEOUT)];
      deployments := deployments[d := Deployment(true, DeploymentRunning)];
      issued := issued + {instance, plan, group, task} + leaseIds;
    }

    method ActiveDeploymentRun(d: Id) returns (blocked: bool)
      ensures blocked == StartBlocked(Model(), d)
    {
      if exists i | i in instances :: instances[i].deployment == d && BlocksStart(instances[i].actual) {
        return true;
      }
      blocked := exists t | t in tasks :: tasks[t].deployment == d && (tasks[t].kind == StartTask || tasks[t].kind == StopTask)
                                         && (tasks[t].status == TaskPending || tasks[t].status == TaskInProgress);
    }

    /** Inserts one lease after the other; the unique index refuses a GPU that is already held. */
    method InsertLeases(d: Id, node: Id, gpus: map<Id, Id>, instance: Id) returns (ok: bool)
      requires gpus.Keys !! leases.Keys
      modifies `leases
      ensures ok == !IndexRefuses(old(Model()), gpus)
      ensures ok ==> leases == old(leases) + map l | l in gpus :: Lease(gpus[l], node, d, instance, LeaseReserved, None)
    {
      ghost var start := Model();
      var todo, done := gpus.Keys, {};
      while todo != {}
        invariant done + todo == gpus.Keys && done !! todo
        invariant leases.Keys == start.leases.Keys + done
        invariant forall l | l in start.leases :: leases[l] == start.leases[l]
        invariant forall l | l in done :: leases[l] == Lease(gpus[l], node, d, instance, LeaseReserved, None)
        invariant forall l | l in done :: !GpuHeld(start, gpus[l])
        invariant forall l, m | l in done && m in done && l != m :: gpus[l] != gpus[m]
        decreases todo
      {
        NonEmpty(todo);
        var k :| k in todo;
        if exists l | l in leases :: leases[l].gpu == gpus[k] && Holds(leases[l]) {
          ghost var l :| l in leases && leases[l].gpu == gpus[k] && Holds(leases[l]);
          assert l in start.leases ==> GpuHeld(start, gpus[k]);
          return false;
        }
        assert !GpuHeld(start, gpus[k]) by {
          assert forall l | l in start.leases :: leases[l] == start.leases[l];
        }
        assert forall l | l in done :: Holds(leases[l]);
        leases := leases[k := Lease(gpus[k], node, d, instance, LeaseReserved, None)];
        todo, done := todo - {k}, done + {k};
      }
      assert done == gpus.Keys;
      ghost var rows := map l | l in gpus :: Lease(gpus[l], node, d, instance, LeaseReserved, None);
      UnionOf(start.leases, rows, leases);
      ok := true;
    }

    /**
     The stop handler's loop and its final UPDATE, without the waits between the turns: a legal run
     with one turn for each instance of the deployment that is not stopped. Every one of them is told to
     stop, by a task where its node is online, and the deployment is stopped and no longer wanted.
     */
    method HandleStop(d: Id, taskIds: seq<Id>, now: int) returns (found: bool, ghost turns: seq<Event>)
      requires Inv(Model()) && |taskIds| >= |instances| && DistinctIds(taskIds)
      requires forall k | 0 <= k < |taskIds| :: taskIds[k] !in issued
      modifies this
      ensures found == (d in old(deployments))
      ensures !found ==> Model() == old(Model())
      ensures found ==> Legal(old(Model()), turns + [FinishStop(d)]) && Model() == Run(old(Model()), turns + [FinishStop(d)])
      ensures found ==> StopsExactly(turns, NotStopped(old(instances), d))
      ensures found ==> deployments == old(deployments)[d := Deployment(false, DeploymentStopped)]
      ensures found ==> ToldToStop(old(Model()), Model().(deployments := old(deployments)), d,
                          (set i | i in old(instances) && old(instances)[i].deployment == d && old(instances)[i].actual != InstanceStopped), now)
    {
      turns := [];
      if d !in deployments {
        return false, turns;
      }
      turns := StopAll(d, taskIds, now);
      RunOne(old(Model()), turns, FinishStop(d));
      deployments := deployments[d := Deployment(false, DeploymentStopped)];
      found := true;
    }

    ghost predicate Reached(start: State, turns: seq<Event>)
      reads this
    {
      Inv(Model()) && Legal(start, turns) && Model() == Run(start, turns)
    }

    method StopAll(d: Id, taskIds: seq<Id>, now: int) returns (ghost turns: seq<Event>)
      requires Inv(Model()) && d in deployments && |taskIds| >= |instances| && DistinctIds(taskIds)
      requires forall k | 0 <= k < |taskIds| :: taskIds[k] !in issued
      modifies `instances, `tasks, `issued
      ensures Legal(old(Model()), turns) && Model() == Run(old(Model()), turns)
      ensures StopsExactly(turns, NotStopped(old(instances), d))
      ensures ToldToStop(old(Model()), Model(), d, NotStopped(old(instances), d), now)
    {
      var all := NotStopped(instances, d);
      SubsetSize(all, instances.Keys);
      turns := StopEach(d, all, taskIds, now);
    }

    method StopEach(d: Id, all: set<Id>, taskIds: seq<Id>, now: int) returns (ghost turns: seq<Event>)
      requires Inv(Model()) && d in deployments && AllOf(instances, all, d) && |taskIds| >= |all| && DistinctIds(taskIds)
      requires forall k | 0 <= k < |taskIds| :: taskIds[k] !in issued
      modifies `instances, `tasks, `issued
      ensures Legal(old(Model()), turns) && Model() == Run(old(Model()), turns) && StopsExactly(turns, all)
      ensures ToldToStop(old(Model()), Model(), d, all, now)
    {
      turns := [];
      ghost var start := Model();
      var todo, n := all, 0;
      while todo != {}
        invariant todo <= all && 0 <= n && n + |todo| <= |taskIds|
        invariant Reached(start, turns) && AllOf(instances, all, d)
        invariant NewFrom(taskIds, n, issued) && StopsExactly(turns, all - todo) && ToldToStop(start, Model(), d, all - todo, now)
        decreases todo
      {
        NonEmpty(todo);
        var i :| i in todo;
        StoppedSoFar(all, todo, i);
        ghost var before := issued;
        turns := StopNext(d, i, taskIds[n], now, start, turns, all - todo);
        StillNew(taskIds, n, before, issued);
        todo, n := todo - {i}, n + 1;
      }
      assert all - todo == all;
    }

    /** One more turn of the loop: the run so far grows by its event. */
    method StopNext(d: Id, i: Id, task: Id, now: int, ghost start: State, ghost turns: seq<Event>, ghost done: set<Id>)
      returns (ghost more: seq<Event>)
      requires Inv(Model()) && d in deployments && i in instances && instances[i].deployment == d && task !in issued
      requires Reached(start, turns) && StopsExactly(turns, done) && i !in done
      modifies `instances, `tasks, `issued
      requires ToldToStop(start, Model(), d, done, now)
      ensures issued <= old(issued) + {task} && forall all | AllOf(old(instances), all, d) :: AllOf(instances, all, d)
      ensures Reached(start, more) && StopsExactly(more, done + {i}) && ToldToStop(start, Model(), d, done + {i}, now)
    {
      ghost var before := Model();
      ghost var e := StopTurn(d, i, task, now);
      OneMoreTold(start, before, d, done, i, task, now);
      RunOne(start, turns, e);
      StopsOneMore(turns, done, e);
      more := turns + [e];
    }

    /** Reads the node of the instance, marks the instance, and dispatches the task. */
    method StopTurn(d: Id, i: Id, task: Id, now: int) returns (ghost e: Event)
      requires Inv(Model()) && d in deployments && i in instances && instances[i].deployment == d && task !in issued
      modifies `instances, `tasks, `issued
      ensures e == DispatchStop(d, i, old(instances)[i].node, OnlineIn(nodes, old(instances)[i].node), task, now)
      ensures Allowed(old(Model()), e) && Model() == Apply(old(Model()), e)
      ensures Inv(Model()) && issued <= old(issued) + {task} && instances.Keys == old(instances).Keys
      ensures forall j | j in instances :: instances[j].deployment == old(instances)[j].deployment
    {
      var node := instances[i].node;
      var online := node in nodes && nodes[node].online;
      e := DispatchStop(d, i, node, online, task, now);
      InvStep(Model(), e);
      DispatchStopTurn(d, i, node, online, task, now);
    }

    method DispatchStopTurn(d: Id, i: Id, node: Id, online: bool, task: Id, now: int)
      modifies `instances, `tasks, `issued
      ensures Model() == DispatchStopStep(old(Model()), d, i, node, online, task, now)
    {
      if i in instances {
        instances := instances[i := instances[i].(desiredRunning := false,
          actual := if instances[i].actual == InstanceRunning then InstanceStopping else instances[i].actual)];
      }
      if online {
        tasks := tasks[task := NewTask(StopTask, d, i, node, now, STOP_TIMEOUT)];
        issued := issued + {task};
      }
    }

    method HandleLogs(plan: Id, task: Id, now: int) returns (ok: bool)
      modifies this
      ensures Model() == Apply(old(Model()), RequestLogs(plan, task, now)) && ok == LogsAccepted(old(Model()), plan)
    {
      if plan !in plans || plans[plan].instance !in instances {
        return false;
      }
      var node := instances[plans[plan].instance].node;
      if node !in nodes || !nodes[node].online {
        return false;
      }
      tasks := tasks[task := NewTask(LogsTask, plans[plan].deployment, plans[plan].instance, node, now, LOGS_TIMEOUT)];
      issued := issued + {task};
      ok := true;
    }

    /** Deletes in the order the foreign keys demand: nothing refers to a row when it goes. */
    method HandleDelete(d: Id) returns (ok: bool)
      modifies this
      ensures Model() == Apply(old(Model()), Delete(d)) && ok == (d in old(deployments))
    {
      if d !in deployments {
        return false;
      }
      CancelRows(d);
      CancelledThenDeleted(old(Model()), Model(), d);
      DeleteRows(d);
      ok := true;
    }

    /** The three UPDATEs before the deletes touch only rows that are about to go. */
    method CancelRows(d: Id)
      modifies `instances, `leases, `tasks
      ensures instances.Keys == old(instances).Keys && leases.Keys == old(leases).Keys && tasks.Keys == old(tasks).Keys
      ensures forall i | i in instances :: instances[i].deployment == old(instances)[i].deployment
                && (instances[i].deployment != d ==> instances[i] == old(instances)[i])
      ensures forall l | l in leases :: leases[l].deployment == old(leases)[l].deployment
                && (leases[l].deployment != d ==> leases[l] == old(leases)[l])
      ensures forall t | t in tasks :: tasks[t].deployment == old(tasks)[t].deployment
                && (tasks[t].deployment != d ==> tasks[t] == old(tasks)[t])
    {
      instances := map i | i in instances ::
        if instances[i].deployment == d && instances[i].actual != InstanceStopped
        then instances[i].(actual := InstanceStopped, desiredRunning := false) else instances[i];
      leases := map l | l in leases ::
        if leases[l].deployment == d && Holds(leases[l]) then leases[l].(status := LeaseReleased) else leases[l];
      tasks := map t | t in tasks ::
        if tasks[t].deployment == d && tasks[t].status != TaskCompleted && tasks[t].status != TaskFailed
        then tasks[t].(status := TaskFailed) else tasks[t];
    }

    method DeleteRows(d: Id)
      requires d in deployments
      modifies this
      ensures Model() == DeleteStep(old(Model()), d)
    {
      tasks := map t | t in tasks && tasks[t].deployment != d :: tasks[t];
      plans := map p | p in plans && plans[p].deployment != d :: plans[p];
      groups := map g | g in groups && groups[g] != d :: groups[g];
      leases := map l | l in leases && leases[l].deployment != d :: leases[l];
      instances := map i | i in instances && instances[i].deployment != d :: instances[i];
      deployments := deployments - {d};
    }
  }

  lemma UnionOf(a: map<Id, Lease>, b: map<Id, Lease>, c: map<Id, Lease>)
    requires c.Keys == a.Keys + b.Keys && a.Keys !! b.Keys
    requires (forall l | l in a :: c[l] == a[l]) && (forall l | l in b :: c[l] == b[l])
    ensures c == a + b
  {
    SameMap(c, a + b);
  }

  lemma CancelledThenDeleted(s: State, c: State, d: Id)
    requires d in s.deployments && c == s.(instances := c.instances, leases := c.leases, tasks := c.tasks)
    requires c.instances.Keys == s.instances.Keys && c.leases.Keys == s.leases.Keys && c.tasks.Keys == s.tasks.Keys
    requires forall i | i in c.instances :: c.instances[i].deployment == s.instances[i].deployment
               && (c.instances[i].deployment != d ==> c.instances[i] == s.instances[i])
    requires forall l | l in c.leases :: c.leases[l].deployment == s.leases[l].deployment
               && (c.leases[l].deployment != d ==> c.leases[l] == s.leases[l])
    requires forall t | t in c.tasks :: c.tasks[t].deployment == s.tasks[t].deployment
               && (c.tasks[t].deployment != d ==> c.tasks[t] == s.tasks[t])
    ensures DeleteStep(c, d) == DeleteStep(s, d)
  {
    var a, z := DeleteStep(s, d), DeleteStep(c, d);
    SameMap(a.tasks, z.tasks);
    SameMap(a.leases, z.leases);
    SameMap(a.instances, z.instances);
  }

  predicate OnlineIn(nodes: map<Id, Node>, node: Id) {
    node in nodes && nodes[node].online
  }

  /** The instances are no longer wanted, and stopping if they were running. */
  ghost predicate MarkedStopping(before: map<Id, Instance>, after: map<Id, Instance>, ids: set<Id>) {
    && after.Keys == before.Keys
    && (forall i | i in before && i !in ids :: after[i] == before[i])
    && forall i | i in before && i in ids :: after[i] == Instance(before[i].deployment, before[i].node,
         if before[i].actual == InstanceRunning then InstanceStopping else before[i].actual, false)
  }

  /** The new tasks are one pending stop task for each of the instances whose node is online. */
  ghost predicate StopTasksAdded(s: State, after: map<Id, Task>, d: Id, ids: set<Id>, now: int) {
    && (forall t | t in s.tasks :: t in after && after[t] == s.tasks[t])
    && (forall t | t in after && t !in s.tasks :: after[t].instance in ids && after[t].instance in s.instances
          && after[t] == Task(StopTask, TaskPending, d, after[t].instance, s.instances[after[t].instance].node, now, 90, NO_ID, NO_ID, None, 0, 1, 0)
          && after[t].node in s.nodes && s.nodes[after[t].node].online)
    && (forall t, u | t in after && u in after && t !in s.tasks && u !in s.tasks :: after[t].instance == after[u].instance ==> t == u)
    && forall i | i in ids && i in s.instances && s.instances[i].node in s.nodes && s.nodes[s.instances[i].node].online
         :: exists t :: t in after && t !in s.tasks && after[t].instance == i
  }

  ghost predicate ToldToStop(s: State, r: State, d: Id, ids: set<Id>, now: int) {
    && MarkedStopping(s.instances, r.instances, ids) && StopTasksAdded(s, r.tasks, d, ids, now)
    && r.nodes == s.nodes && r.deployments == s.deployments && r.plans == s.plans && r.groups == s.groups && r.leases == s.leases
    && r.history == s.history
  }

  lemma OneMoreTask(s: State, before: map<Id, Task>, d: Id, ids: set<Id>, i: Id, task: Id, now: int)
    requires StopTasksAdded(s, before, d, ids, now) && i !in ids && task !in before && i in s.instances
    ensures OnlineIn(s.nodes, s.instances[i].node) ==>
              StopTasksAdded(s, before[task := NewTask(StopTask, d, i, s.instances[i].node, now, STOP_TIMEOUT)], d, ids + {i}, now)
    ensures !OnlineIn(s.nodes, s.instances[i].node) ==> StopTasksAdded(s, before, d, ids + {i}, now)
  {
    if OnlineIn(s.nodes, s.instances[i].node) {
      var after := before[task := NewTask(StopTask, d, i, s.instances[i].node, now, STOP_TIMEOUT)];
      assert forall t | t in before :: after[t] == before[t];
      forall j | j in ids + {i} && j in s.instances && s.instances[j].node in s.nodes && s.nodes[s.instances[j].node].online
        ensures exists t :: t in after && t !in s.tasks && after[t].instance == j
      {
        if j == i {
          assert task in after && after[task].instance == i;
        } else {
          var t :| t in before && t !in s.tasks && before[t].instance == j;
          assert t in after;
        }
      }
    }
  }

  lemma OneMoreMarked(s: State, m: State, ids: set<Id>, e: Event)
    requires MarkedStopping(s.instances, m.instances, ids) && e.DispatchStop? && e.instance in m.instances && e.instance !in ids
    ensures MarkedStopping(s.instances, Apply(m, e).instances, ids + {e.instance})
  {
  }

  lemma OneMoreTold(s: State, m: State, d: Id, ids: set<Id>, i: Id, task: Id, now: int)
    requires ToldToStop(s, m, d, ids, now) && i in m.instances && i !in ids && task !in m.tasks
    ensures ToldToStop(s, Apply(m, DispatchStop(d, i, m.instances[i].node, OnlineIn(m.nodes, m.instances[i].node), task, now)), d, ids + {i}, now)
  {
    var e := DispatchStop(d, i, m.instances[i].node, OnlineIn(m.nodes, m.instances[i].node), task, now);
    OneMoreMarked(s, m, ids, e);
    OneMoreTask(s, m.tasks, d, ids, i, task, now);
  }

  function NotStopped(instances: map<Id, Instance>, d: Id): set<Id> {
    set i | i in instances && instances[i].deployment == d && instances[i].actual != InstanceStopped
  }

  ghost predicate AllOf(instances: map<Id, Instance>, ids: set<Id>, d: Id) {
    forall i | i in ids :: i in instances && instances[i].deployment == d
  }

  ghost predicate NewFrom(ids: seq<Id>, n: nat, issued: set<Id>) {
    forall k | n <= k < |ids| :: ids[k] !in issued
  }

  lemma StillNew(ids: seq<Id>, n: nat, before: set<Id>, after: set<Id>)
    requires n < |ids| && DistinctIds(ids) && NewFrom(ids, n, before) && after <= before + {ids[n]}
    ensures NewFrom(ids, n + 1, after)
  {
  }

  lemma StoppedSoFar(all: set<Id>, todo: set<Id>, i: Id)
    requires todo <= all && i in todo
    ensures all - (todo - {i}) == (all - todo) + {i}
  {
  }

  /** One turn for each of the instances and no other. */
  ghost predicate StopsExactly(turns: seq<Event>, ids: set<Id>) {
    && (forall k | 0 <= k < |turns| :: turns[k].DispatchStop? && turns[k].instance in ids)
    && (forall i | i in ids :: exists k :: 0 <= k < |turns| && turns[k].DispatchStop? && turns[k].instance == i)
  }

  lemma StopsOneMore(turns: seq<Event>, ids: set<Id>, e: Event)
    requires StopsExactly(turns, ids) && e.DispatchStop?
    ensures StopsExactly(turns + [e], ids + {e.instance})
  {
    var after := turns + [e];
    forall i | i in ids + {e.instance} ensures exists k :: 0 <= k < |after| && after[k].DispatchStop? && after[k].instance == i {
      if i == e.instance {
        assert after[|turns|] == e;
      } else {
        var k :| 0 <= k < |turns| && turns[k].DispatchStop? && turns[k].instance == i;
        assert after[k] == turns[k];
      }
    }
  }

  lemma RunOne(s: State, events: seq<Event>, e: Event)
    requires Legal(s, events) && Allowed(Run(s, events), e)
    ensures Legal(s, events + [e]) && Run(s, events + [e]) == Apply(Run(s, events), e)
  {
    RunConcat(s, events, [e]);
    assert [e][1..] == [];
    assert Run(Run(s, events), [e]) == Run(Apply(Run(s, events), e), []);
    assert Legal(Apply(Run(s, events), e), []);
  }
}
