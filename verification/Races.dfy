/**
 Two things the protocol does not exclude, each with its exact condition: a second running instance
 of a deployment, and a stop task for a deployment that was deleted while the stop handler waited.
 */
module Races {
  import opened Collections
  import opened Results
  import opened Protocol
  import opened ProtocolInvariants
  import opened SingleActive
  import opened SweepAndClaim
  import opened ControlPlaneServer

  lemma TurnKeepsOwners(s: State, d: Id, i: Id, node: Id, task: Id, now: int, j: Id, e: Id)
    ensures var r := DispatchStopStep(s, d, i, node, true, task, now);
      BelongsTo(r.instances, r.deployments.Keys, j, e) <==> BelongsTo(s.instances, s.deployments.Keys, j, e)
  {
  }

  lemma OrphanOpens(s: State, d: Id, i: Id, node: Id, task: Id, now: int)
    requires !BelongsTo(s.instances, s.deployments.Keys, i, d)
    ensures !Closed(DispatchStopStep(s, d, i, node, true, task, now))
  {
    var r := DispatchStopStep(s, d, i, node, true, task, now);
    TurnKeepsOwners(s, d, i, node, task, now, i, d);
    assert task in r.tasks && r.tasks[task].instance == i && r.tasks[task].deployment == d;
  }

  lemma OwnedStaysClosed(s: State, d: Id, i: Id, node: Id, task: Id, now: int)
    requires Closed(s) && Issued(s) && task !in s.issued && BelongsTo(s.instances, s.deployments.Keys, i, d)
    ensures Closed(DispatchStopStep(s, d, i, node, true, task, now))
  {
    var r := DispatchStopStep(s, d, i, node, true, task, now);
    forall j, e
      ensures BelongsTo(r.instances, r.deployments.Keys, j, e) <==> BelongsTo(s.instances, s.deployments.Keys, j, e)
    {
      TurnKeepsOwners(s, d, i, node, task, now, j, e);
    }
    assert forall t | t in s.tasks && t != task :: r.tasks[t] == s.tasks[t];
  }

  /**
   A turn of the stop handler whose deployment or instance is gone by then leaves an orphan task; the
   tables stay closed exactly when the instance still belongs to the deployment.
   */
  lemma StopTurnStaysClosed(s: State, d: Id, i: Id, node: Id, task: Id, now: int)
    requires Closed(s) && Issued(s) && task !in s.issued
    ensures Closed(DispatchStopStep(s, d, i, node, true, task, now)) <==> BelongsTo(s.instances, s.deployments.Keys, i, d)
  {
    if BelongsTo(s.instances, s.deployments.Keys, i, d) {
      OwnedStaysClosed(s, d, i, node, task, now);
    } else {
      OrphanOpens(s, d, i, node, task, now);
    }
  }

  /** Once the deployment is deleted, whatever turn of its stop handler is left breaks the closure of the tables. */
  lemma StopAfterDelete(s: State, d: Id, i: Id, node: Id, task: Id, now: int)
    requires d in s.deployments
    ensures !Closed(DispatchStopStep(Apply(s, Delete(d)), d, i, node, true, task, now))
  {
    OrphanOpens(Apply(s, Delete(d)), d, i, node, task, now);
  }

  // ------------------------------------------------------------------------------------------
  // A run that ends with two running instances of one deployment
  // ------------------------------------------------------------------------------------------

  const SUCCESS := Report(None, Some(WordSuccess), None, None, None, None)

  function Row(kind: TaskKind, status: TaskStatus, instance: Id, created: int, timeout: int, claimed: Option<int>): Task {
    if claimed.None? then Task(kind, status, 3, instance, 1, created, timeout, NO_ID, NO_ID, None, 0, 1, 0)
    else Task(kind, status, 3, instance, 1, created, timeout, 2, 2, claimed, 1, 2, 1)
  }

  function Tables(status: DeploymentStatus, wanted: bool, instances: map<Id, Instance>, plans: map<Id, Plan>, groups: map<Id, Id>,
                  leases: map<Id, Lease>, tasks: map<Id, Task>, issued: set<Id>, history: seq<Outcome>): State
  {
    State(map[1 := Node(2, true)], map[3 := Deployment(wanted, status)], instances, plans, groups, leases, tasks, issued, history)
  }

  function LeaseOf(instance: Id, st: LeaseStatus): Lease {
    Lease(21, 1, 3, instance, st, None)
  }

  function Inst(st: InstanceState, wanted: bool): Instance {
    Instance(3, 1, st, wanted)
  }

  const FIRST_PLAN: map<Id, Plan> := map[5 := Plan(3, 4)]
  const FIRST_GROUP: map<Id, Id> := map[6 := 3]
  const FIRST_IDS: set<Id> := {NO_ID, 3, 4, 5, 6, 7, 20}
  const RESERVED: map<Id, Lease> := map[20 := LeaseOf(4, LeaseReserved)]
  const RELEASED: map<Id, Lease> := map[20 := LeaseOf(4, LeaseReleased)]

  const S1 := Tables(DeploymentSaved, false, map[], map[], map[], map[], map[], {NO_ID, 3}, [])
  const S2 := Tables(DeploymentRunning, true, map[4 := Inst(InstancePending, true)], FIRST_PLAN, FIRST_GROUP, RESERVED,
                     map[7 := Row(StartTask, TaskPending, 4, 0, 300, None)], FIRST_IDS, [])
  const S3 := Tables(DeploymentRunning, true, map[4 := Inst(InstancePending, true)], FIRST_PLAN, FIRST_GROUP, RESERVED,
                     map[7 := Row(StartTask, TaskClaimed, 4, 0, 300, Some(1))], FIRST_IDS, [])
  const S4 := Tables(DeploymentRunning, true, map[4 := Inst(InstancePending, false)], FIRST_PLAN, FIRST_GROUP, RESERVED,
                     map[7 := Row(StartTask, TaskClaimed, 4, 0, 300, Some(1)), 8 := Row(StopTask, TaskPending, 4, 2, 90, None)],
                     FIRST_IDS + {8}, [])
  const S5 := Tables(DeploymentRunning, true, map[4 := Inst(InstanceStopped, false)], FIRST_PLAN, FIRST_GROUP, RELEASED,
                     map[7 := Row(StartTask, TaskClaimed, 4, 0, 300, Some(1)), 8 := Row(StopTask, TaskCompleted, 4, 2, 90, None)],
                     FIRST_IDS + {8}, [StopSucceeded(4)])
  const E1: seq<Event> := [RegisterNode(1, 2), CreateDeployment(3)]
  const E2 := Start(3, 1, map[20 := 21], true, 4, 5, 6, 7, 0)
  const E3 := Heartbeat(1, 2, 1, [7], [7])
  const E4 := DispatchStop(3, 4, 1, true, 8, 2)
  const E5 := TaskResult(8, SUCCESS, 3)
  const E6 := Start(3, 1, map[34 := 21], true, 30, 31, 32, 33, 5)

  lemma Step1()
    ensures Legal(Initial, E1) && Run(Initial, E1) == S1
  {
    RunOne(Initial, [], E1[0]);
    RunOne(Initial, [E1[0]], E1[1]);
    assert [] + [E1[0]] == [E1[0]] && [E1[0]] + [E1[1]] == E1;
  }

  lemma Step2()
    ensures Allowed(S1, E2) && Apply(S1, E2) == S2
  {
    assert !StartBlocked(S1, 3) && !IndexRefuses(S1, map[20 := 21]);
    assert Apply(S1, E2).issued == FIRST_IDS;
    SameMap(Apply(S1, E2).leases, RESERVED);
  }

  lemma Step3Sweeps()
    ensures MarkOnline(S2, 1) == S2 && Sweep(S2, 1, 1) == S2
  {
    assert MarkOnline(S2, 1) == S2;
    assert SweptClean(S2, 1, 1);
    CleanIsFixed(S2, 1, 1);
  }

  lemma Step3()
    ensures Allowed(S2, E3) && Apply(S2, E3) == S3
  {
    Step3Sweeps();
    Step3Claims(S2.tasks, S3.tasks);
    SameMap(Claim(S2, 2, 1, [7]).tasks, S3.tasks);
    HeartbeatApplies(S2, 1, 2, 1, [7], [7]);
  }

  lemma HeartbeatApplies(s: State, node: Id, agent: Id, now: int, picked: seq<Id>, returned: seq<Id>)
    requires HeartbeatAccepted(s, node, agent) && MarkOnline(s, node) == s && Sweep(s, node, now) == s
    requires FirstTen(s.tasks, PendingOn(s.tasks, node), picked)
    requires var after := Claim(s, agent, now, picked).tasks; FirstTen(after, ClaimedAt(after, node, agent, now), returned)
    ensures Allowed(s, Heartbeat(node, agent, now, picked, returned))
    ensures Apply(s, Heartbeat(node, agent, now, picked, returned)) == Claim(s, agent, now, picked)
  {
  }

  lemma Step3Claims(tasks: map<Id, Task>, after: map<Id, Task>)
    requires tasks == map[7 := Row(StartTask, TaskPending, 4, 0, 300, None)]
    requires after == map[7 := Row(StartTask, TaskClaimed, 4, 0, 300, Some(1))]
    ensures PendingOn(tasks, 1) == {7} && ClaimedAt(after, 1, 2, 1) == {7}
    ensures FirstTen(tasks, {7}, [7]) && FirstTen(after, {7}, [7])
  {
  }

  lemma Step4()
    ensures Allowed(S3, E4) && Apply(S3, E4) == S4
  {
    SameMap(Apply(S3, E4).tasks, S4.tasks);
    SameMap(Apply(S3, E4).instances, S4.instances);
  }

  lemma Step5Settles()
    ensures Settle(S4, 8, StopTask, true, 4) == S5
  {
    var after := Settle(S4, 8, StopTask, true, 4);
    SameMap(after.tasks, S5.tasks);
    SameMap(after.instances, S5.instances);
    SameMap(after.leases, RELEASED);
  }

  lemma Step5()
    ensures Allowed(S4, E5) && Apply(S4, E5) == S5
  {
    assert ResultAccepted(S4, 8, SUCCESS) && VerdictOf(SUCCESS) == Succeeded;
    Step5Settles();
  }

  lemma Step6()
    ensures Allowed(S5, E6) && StartAccepted(S5, E6.deployment, E6.preflight, E6.gpus)
  {
    assert forall x | x in S5.issued :: x <= 20;
    Step6Accepted();
  }

  lemma Step6Accepted()
    ensures StartAccepted(S5, 3, true, map[34 := 21])
  {
    assert !StartBlocked(S5, 3) && !GpuHeld(S5, 21);
    assert !IndexRefuses(S5, map[34 := 21]);
  }

  ghost predicate BothRunning(s: State, i: Id, j: Id) {
    i in s.instances && j in s.instances && s.instances[i].deployment == s.instances[j].deployment
    && s.instances[i].actual == s.instances[j].actual == InstanceRunning
  }

  /** Whenever the guard lets a start pass beside a claimed start task, two successes leave both instances running. */
  lemma LateResultRuns(s: State, e: Event, t: Id, now: int)
    requires Inv(s) && Allowed(s, e) && e.Start? && StartAccepted(s, e.deployment, e.preflight, e.gpus)
    requires t in s.tasks && s.tasks[t].kind == StartTask && s.tasks[t].status == TaskClaimed && s.tasks[t].deployment == e.deployment
    ensures var a := Apply(s, e); var b := Apply(a, TaskResult(t, SUCCESS, now));
      BothRunning(Apply(b, TaskResult(e.task, SUCCESS, now)), s.tasks[t].instance, e.instance)
    ensures s.tasks[t].instance != e.instance
  {
    var a := Apply(s, e);
    var i := s.tasks[t].instance;
    StartRows(s, e.deployment, e.node, e.gpus, e.instance, e.plan, e.group, e.task, e.now);
    assert BelongsTo(s.instances, s.deployments.Keys, i, s.tasks[t].deployment);
    InvStep(s, e);
    SuccessRuns(a, t, now);
    InvStep(a, TaskResult(t, SUCCESS, now));
    SuccessRuns(Apply(a, TaskResult(t, SUCCESS, now)), e.task, now);
  }

  /** A success without an agent id settles any unfinished start task. */
  lemma SuccessRuns(s: State, t: Id, now: int)
    requires Inv(s) && t in s.tasks && s.tasks[t].kind == StartTask && Unfinished(s.tasks[t].status)
    ensures var r := Apply(s, TaskResult(t, SUCCESS, now)); var i := s.tasks[t].instance;
      && i in s.instances && r.instances == s.instances[i := s.instances[i].(actual := InstanceRunning)]
      && r.tasks == s.tasks[t := s.tasks[t].(status := TaskCompleted)]
  {
    assert ResultAccepted(s, t, SUCCESS) && VerdictOf(SUCCESS) == Succeeded;
    ResultSettles(s, t, SUCCESS, now);
    SettleRows(s, t, StartTask, true, s.tasks[t].instance);
  }

  /**
   Stop a deployment whose start task is claimed, let the stop finish first, start again on the same
   GPU: the late result of the first start makes its instance running beside the second one.
   */
  lemma TwoRunningInstances() returns (events: seq<Event>)
    ensures Legal(Initial, events) && !Careful(Initial, events)
    ensures exists i, j :: i != j && BothRunning(Run(Initial, events), i, j)
  {
    events := UpToFirstStop();
    assert S5.tasks[7].status == TaskClaimed && S5.tasks[7].kind == StartTask && S5.tasks[7].deployment == 3;
    Step6();
    ReachableInv(events);
    LateResultRuns(S5, E6, 7, 6);
    RunOne(Initial, events, E6);
    events := events + [E6];
    RunOne(Initial, events, TaskResult(7, SUCCESS, 6));
    events := events + [TaskResult(7, SUCCESS, 6)];
    RunOne(Initial, events, TaskResult(33, SUCCESS, 6));
    events := events + [TaskResult(33, SUCCESS, 6)];
    assert BothRunning(Run(Initial, events), 4, 30);
    TwoRunningIsCareless(events, 4, 30);
  }

  /** A run that ends with two running instances of one deployment was not careful. */
  lemma TwoRunningIsCareless(events: seq<Event>, i: Id, j: Id)
    requires Legal(Initial, events) && i != j && BothRunning(Run(Initial, events), i, j)
    ensures !Careful(Initial, events)
  {
    FromEmptyDatabase(events);
    if AlwaysOneLive(Initial, events) {
      LastIsOneLive(Initial, events);
      assert Live(Run(Initial, events), i) && Live(Run(Initial, events), j);
    }
  }

  lemma UpToStart() returns (events: seq<Event>)
    ensures Legal(Initial, events) && Run(Initial, events) == S2
  {
    Step1();
    Step2();
    events := E1;
    RunOne(Initial, events, E2);
    events := events + [E2];
  }

  lemma UpToFirstStop() returns (events: seq<Event>)
    ensures Legal(Initial, events) && Run(Initial, events) == S5
  {
    Step3();
    Step4();
    Step5();
    events := UpToStart();
    RunOne(Initial, events, E3);
    events := events + [E3];
    RunOne(Initial, events, E4);
    events := events + [E4];
    RunOne(Initial, events, E5);
    events := events + [E5];
  }

  lemma {:induction false} LastIsOneLive(s: State, events: seq<Event>)
    requires AlwaysOneLive(s, events)
    ensures OneLive(Run(s, events))
    decreases |events|
  {
    if events != [] {
      LastIsOneLive(Apply(s, events[0]), events[1..]);
    }
  }
}
