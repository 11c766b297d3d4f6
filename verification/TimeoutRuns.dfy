/** Runs from the empty database in which a timeout outlasts what came after it. */
module TimeoutRuns {
  import opened Collections
  import opened Results
  import opened Protocol
  import opened ProtocolInvariants
  import opened LeaseLedger
  import opened TaskLifeCycle
  import opened SweepAndClaim
  import opened ControlPlaneServer
  import opened HandOff
  import opened Races

  // ------------------------------------------------------------------------------------------
  // A start that timed out
  // ------------------------------------------------------------------------------------------

  /** The start task is never claimed and times out; no start that needs its GPU is accepted any more. */
  lemma TimedOutStart() returns (events: seq<Event>, beat: Event)
    ensures Legal(Initial, events + [beat]) && beat.Heartbeat?
    ensures var z := Run(Initial, events + [beat]);
      && 7 in z.tasks && z.tasks[7].kind == StartTask && z.tasks[7].status == TaskTimedOut
      && forall d, preflight, gpus: map<Id, Id>, m | m in gpus && gpus[m] == 21 :: !StartAccepted(z, d, preflight, gpus)
  {
    events := UpToStart();
    ReachableInv(events);
    OneStart();
    beat := SomeBeat(S2, 1, 2, 400);
    OverdueFailsInstance(S2, beat, 7);
    RunOne(Initial, events, beat);
    BeatKeepsGpu(S2, beat, 20, 21);
  }

  lemma OneStart()
    ensures 7 in S2.tasks && S2.tasks[7].kind == StartTask && S2.tasks[7].status == TaskPending && S2.tasks[7].node == 1
    ensures Overdue(S2.tasks[7], 400) && HeartbeatAccepted(S2, 1, 2)
    ensures 20 in S2.leases && S2.leases[20].gpu == 21 && Holds(S2.leases[20])
  {
  }

  lemma BeatKeepsGpu(s: State, beat: Event, l: Id, gpu: Id)
    requires AcceptedBeat(s, beat) && l in s.leases && s.leases[l].gpu == gpu && Holds(s.leases[l])
    ensures var r := Apply(s, beat);
      forall d, preflight, gpus: map<Id, Id>, m | m in gpus && gpus[m] == gpu :: !StartAccepted(r, d, preflight, gpus)
  {
    HeartbeatRows(s, beat.node, beat.agent, beat.now, beat.picked);
    assert GpuHeld(Apply(s, beat), gpu);
  }

  // ------------------------------------------------------------------------------------------
  // A stop after a timeout
  // ------------------------------------------------------------------------------------------

  /** A request for logs times out; the instance is then stopped with success, and the next heartbeat fails it. */
  lemma StoppedThenFailed() returns (events: seq<Event>, stopped: Event, beat: Event)
    ensures Legal(Initial, events + [stopped] + [beat]) && stopped.TaskResult? && beat.Heartbeat?
    ensures var y := Run(Initial, events + [stopped]); 4 in y.instances && y.instances[4].actual == InstanceStopped
    ensures var z := Run(Initial, events + [stopped] + [beat]); 4 in z.instances && z.instances[4].actual == InstanceFailed
  {
    events := UpToTimeout();
    var s := Run(Initial, events);
    ReachableInv(events);
    var stop := DispatchStop(3, 4, 1, true, 8, 41);
    RunOne(Initial, events, stop);
    events := events + [stop];
    stopped := TaskResult(8, SUCCESS, 42);
    StopsInstance(s, stop, stopped, 200);
    RunOne(Initial, events, stopped);
    ReachableInv(events + [stopped]);
    var y := Run(Initial, events + [stopped]);
    beat := SomeBeat(y, 1, 2, 43);
    OverdueFailsInstance(y, beat, 200);
    RunOne(Initial, events + [stopped], beat);
  }

  /** A task of instance 4 timed out by itself. */
  ghost predicate LogsTimedOut(s: State, t: Id) {
    && t in s.tasks && s.tasks[t].status == TaskTimedOut && s.tasks[t].node == 1 && s.tasks[t].instance == 4 && Overdue(s.tasks[t], 43)
    && 1 in s.nodes && s.nodes[1].agent == 2 && 4 in s.instances
  }

  ghost predicate AfterTimeout(s: State, t: Id) {
    LogsTimedOut(s, t) && s.instances[4].deployment == 3 && s.instances[4].node == 1 && 3 in s.deployments && 8 !in s.issued
  }

  /** The stop task is handed in at once, without an agent. */
  lemma StopsInstance(s: State, stop: Event, stopped: Event, t: Id)
    requires Inv(s) && LogsTimedOut(s, t) && Allowed(s, stop)
    requires stop == DispatchStop(3, 4, 1, true, 8, 41) && stopped == TaskResult(8, SUCCESS, 42)
    ensures var y := Apply(Apply(s, stop), stopped); LogsTimedOut(y, t) && y.instances[4].actual == InstanceStopped
  {
    var r := Apply(s, stop);
    assert r.tasks[8] == NewTask(StopTask, 3, 4, 1, 41, STOP_TIMEOUT) && r.tasks[t] == s.tasks[t];
    assert VerdictOf(SUCCESS) == Succeeded && ResultAccepted(r, 8, SUCCESS);
  }

  lemma UpToTimeout() returns (events: seq<Event>)
    ensures Legal(Initial, events) && AfterTimeout(Run(Initial, events), 200)
  {
    events := UpToStart();
    var logs := RequestLogs(5, 200, 0);
    LogsRequested(logs);
    RunOne(Initial, events, logs);
    events := events + [logs];
    ReachableInv(events);
    var s := Apply(S2, logs);
    var beat := SomeBeat(s, 1, 2, 40);
    TimesOut(s, beat, 200);
    RunOne(Initial, events, beat);
    events := events + [beat];
  }

  lemma TimesOut(s: State, beat: Event, t: Id)
    requires AcceptedBeat(s, beat) && beat.node == 1 && beat.agent == 2 && beat.now == 40
    requires t in s.tasks && s.tasks[t] == NewTask(LogsTask, 3, 4, 1, 0, LOGS_TIMEOUT) && s.nodes[1].agent == 2
    requires 4 in s.instances && s.instances[4].deployment == 3 && s.instances[4].node == 1 && 3 in s.deployments && 8 !in s.issued
    ensures AfterTimeout(Apply(s, beat), t)
  {
    OverdueTimesOut(s, beat, t);
    HeartbeatRows(s, beat.node, beat.agent, beat.now, beat.picked);
  }

  lemma LogsRequested(logs: Event)
    requires logs == RequestLogs(5, 200, 0)
    ensures Allowed(S2, logs)
    ensures var s := Apply(S2, logs);
      && 200 in s.tasks && s.tasks[200] == NewTask(LogsTask, 3, 4, 1, 0, LOGS_TIMEOUT) && HeartbeatAccepted(s, 1, 2)
      && s.nodes == S2.nodes && s.instances == S2.instances && s.deployments == S2.deployments && 8 !in s.issued
      && 4 in s.instances && s.instances[4].deployment == 3 && s.instances[4].node == 1 && 3 in s.deployments
  {
    assert LogsAccepted(S2, 5);
  }
}
