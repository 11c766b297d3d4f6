/**
 At most one instance of a deployment is active. The start guard reads pending and in_progress tasks
 but not claimed ones, so the property holds exactly for the runs in which no start is accepted
 while a start task of that deployment is claimed.
 */
module SingleActive {
  import opened Results
  import opened Protocol
  import opened ProtocolInvariants
  import opened LeaseLedger
  import opened TaskLifeCycle

  ghost predicate StartUnfinished(tasks: map<Id, Task>, instance: Id) {
    exists t :: IsStartOf(tasks, t, instance) && Unfinished(tasks[t].status)
  }

  /** On its way up, up, or on its way down. */
  predicate Active(i: Instance) {
    i.actual != InstanceStopped && i.actual != InstanceFailed
  }

  /** The instance is active, or a start of it may still make it so. */
  ghost predicate Live(s: State, i: Id) {
    i in s.instances && (Active(s.instances[i]) || StartUnfinished(s.tasks, i))
  }

  ghost predicate OneLive(s: State) {
    forall i, j | Live(s, i) && Live(s, j) :: s.instances[i].deployment == s.instances[j].deployment ==> i == j
  }

  /** What the coded guard does not look at. */
  ghost predicate StartClaimed(s: State, d: Id) {
    exists t :: t in s.tasks && s.tasks[t].kind == StartTask && s.tasks[t].deployment == d && s.tasks[t].status == TaskClaimed
  }

  lemma StartUnfinishedBefore(s: State, e: Event, i: Id)
    requires Inv(s) && Allowed(s, e) && i in s.instances && StartUnfinished(Apply(s, e).tasks, i)
    ensures StartUnfinished(s.tasks, i)
  {
    var t :| IsStartOf(Apply(s, e).tasks, t, i) && Unfinished(Apply(s, e).tasks[t].status);
    StartTaskIsOld(s, e, t, i);
    TaskStep(s, e, t);
    assert IsStartOf(s.tasks, t, i);
  }

  lemma StartTaskIsOld(s: State, e: Event, t: Id, i: Id)
    requires Inv(s) && Allowed(s, e) && i in s.instances && IsStartOf(Apply(s, e).tasks, t, i)
    ensures t in s.tasks
  {
    match e
    case Heartbeat(node, agent, now, picked, _) =>
      if HeartbeatAccepted(s, node, agent) {
        HeartbeatRows(s, node, agent, now, picked);
      }
    case TaskResult(u, report, now) =>
      if ResultAccepted(s, u, report) {
        ResultSettles(s, u, report, now);
        SettleRows(s, u, s.tasks[u].kind, VerdictOf(report) == Succeeded, s.tasks[u].instance);
      }
    case Start(d, node, gpus, preflight, instance, plan, group, task, now) =>
      if StartAccepted(s, d, preflight, gpus) {
        StartRows(s, d, node, gpus, instance, plan, group, task, now);
      }
    case _ =>
  }

  /** Only an accepted start makes an instance live, and only the one it inserts. */
  lemma LiveBefore(s: State, e: Event, i: Id)
    requires Inv(s) && Allowed(s, e) && i in s.instances && Live(Apply(s, e), i)
    ensures Live(s, i) && Apply(s, e).instances[i].deployment == s.instances[i].deployment
  {
    if StartUnfinished(Apply(s, e).tasks, i) {
      StartUnfinishedBefore(s, e, i);
    }
    InstanceStep(s, e, i);
  }

  /** The instance belongs where it did, and is not revived unless a start of it is unfinished. */
  ghost predicate NotRevived(s: State, r: State, i: Id)
    requires i in s.instances && i in r.instances
  {
    && r.instances[i].deployment == s.instances[i].deployment
    && (Active(r.instances[i]) ==> Active(s.instances[i]) || StartUnfinished(s.tasks, i))
  }

  lemma BeatRevivesNothing(s: State, node: Id, agent: Id, now: int, picked: seq<Id>, i: Id)
    requires Inv(s) && node in s.nodes && i in s.instances
    ensures var r := Claim(Swept(s, node, now), agent, now, picked); i in r.instances && NotRevived(s, r, i)
  {
    HeartbeatRows(s, node, agent, now, picked);
  }

  lemma InstanceStep(s: State, e: Event, i: Id)
    requires Inv(s) && Allowed(s, e) && i in s.instances && i in Apply(s, e).instances
    ensures NotRevived(s, Apply(s, e), i)
  {
    match e
    case Heartbeat(node, agent, now, picked, _) =>
      if HeartbeatAccepted(s, node, agent) {
        BeatRevivesNothing(s, node, agent, now, picked, i);
      }
    case TaskResult(u, report, now) =>
      if ResultAccepted(s, u, report) {
        SettledInstance(s, u, report, now, i);
      }
    case Start(d, node, gpus, preflight, instance, plan, group, task, now) =>
      if StartAccepted(s, d, preflight, gpus) {
        StartRows(s, d, node, gpus, instance, plan, group, task, now);
      }
    case _ =>
  }

  lemma SettledInstance(s: State, u: Id, report: Report, now: int, i: Id)
    requires Inv(s) && ResultAccepted(s, u, report) && i in s.instances
    ensures var r := Apply(s, TaskResult(u, report, now)); i in r.instances && NotRevived(s, r, i)
  {
    assert CycleOk(s.tasks[u]);
    ResultSettles(s, u, report, now);
    SettleRows(s, u, s.tasks[u].kind, VerdictOf(report) == Succeeded, s.tasks[u].instance);
    assert s.tasks[u].kind == StartTask ==> IsStartOf(s.tasks, u, s.tasks[u].instance);
  }

  /** An accepted start keeps the property exactly when no start task of the deployment is claimed. */
  lemma StartKeepsOneLive(s: State, e: Event)
    requires Inv(s) && OneLive(s) && Allowed(s, e) && e.Start? && StartAccepted(s, e.deployment, e.preflight, e.gpus)
    ensures OneLive(Apply(s, e)) <==> !StartClaimed(s, e.deployment)
  {
    var r := Apply(s, e);
    StartRows(s, e.deployment, e.node, e.gpus, e.instance, e.plan, e.group, e.task, e.now);
    assert Live(r, e.instance);
    if StartClaimed(s, e.deployment) {
      var t :| t in s.tasks && s.tasks[t].kind == StartTask && s.tasks[t].deployment == e.deployment && s.tasks[t].status == TaskClaimed;
      var i := s.tasks[t].instance;
      assert BelongsTo(s.instances, s.deployments.Keys, i, s.tasks[t].deployment);
      assert IsStartOf(r.tasks, t, i);
      assert Live(r, i) && r.instances[i].deployment == r.instances[e.instance].deployment;
    } else {
      forall i | i in s.instances && Live(r, i) ensures s.instances[i].deployment != e.deployment {
        LiveBefore(s, e, i);
        if s.instances[i].deployment == e.deployment {
          UnblockedIsQuiet(s, e.deployment, i);
        }
      }
      forall i, j | Live(r, i) && Live(r, j) && r.instances[i].deployment == r.instances[j].deployment ensures i == j {
        if i in s.instances {
          LiveBefore(s, e, i);
        }
        if j in s.instances {
          LiveBefore(s, e, j);
        }
      }
    }
  }

  lemma UnblockedIsQuiet(s: State, d: Id, i: Id)
    requires Inv(s) && !StartBlocked(s, d) && !StartClaimed(s, d) && i in s.instances && s.instances[i].deployment == d
    ensures !Live(s, i)
  {
    forall t | IsStartOf(s.tasks, t, i) ensures !Unfinished(s.tasks[t].status) {
      assert BelongsTo(s.instances, s.deployments.Keys, s.tasks[t].instance, s.tasks[t].deployment);
      assert CycleOk(s.tasks[t]);
    }
  }

  /** Every event but a start keeps the property. */
  lemma OtherKeepsOneLive(s: State, e: Event)
    requires Inv(s) && OneLive(s) && Allowed(s, e)
    requires e.Start? ==> !StartAccepted(s, e.deployment, e.preflight, e.gpus)
    ensures OneLive(Apply(s, e))
  {
    var r := Apply(s, e);
    forall i | Live(r, i) ensures Live(s, i) && r.instances[i].deployment == s.instances[i].deployment {
      InstanceIsOld(s, e, i);
      LiveBefore(s, e, i);
    }
  }

  lemma InstanceIsOld(s: State, e: Event, i: Id)
    requires Inv(s) && Allowed(s, e) && i in Apply(s, e).instances
    requires e.Start? ==> !StartAccepted(s, e.deployment, e.preflight, e.gpus)
    ensures i in s.instances
  {
    if SparesRows(e) {
      RowsAreSpared(s, e);
      return;
    }
    match e
    case Heartbeat(node, agent, now, picked, _) =>
      if HeartbeatAccepted(s, node, agent) {
        HeartbeatRows(s, node, agent, now, picked);
      }
    case TaskResult(u, report, now) =>
      if ResultAccepted(s, u, report) {
        ResultSettles(s, u, report, now);
        SettleRows(s, u, s.tasks[u].kind, VerdictOf(report) == Succeeded, s.tasks[u].instance);
      }
    case _ =>
  }

  /** No start of the run is accepted while a start task of its deployment is claimed. */
  ghost predicate Careful(s: State, events: seq<Event>)
    decreases |events|
  {
    events == [] || (
      && (events[0].Start? && StartAccepted(s, events[0].deployment, events[0].preflight, events[0].gpus) ==> !StartClaimed(s, events[0].deployment))
      && Careful(Apply(s, events[0]), events[1..]))
  }

  ghost predicate AlwaysOneLive(s: State, events: seq<Event>)
    decreases |events|
  {
    OneLive(s) && (events == [] || AlwaysOneLive(Apply(s, events[0]), events[1..]))
  }

  /** A run has at most one active instance per deployment at every moment exactly when it is careful. */
  lemma {:induction false} OneLiveIffCareful(s: State, events: seq<Event>)
    requires Inv(s) && OneLive(s) && Legal(s, events)
    ensures AlwaysOneLive(s, events) <==> Careful(s, events)
    decreases |events|
  {
    if events != [] {
      var e := events[0];
      InvStep(s, e);
      if e.Start? && StartAccepted(s, e.deployment, e.preflight, e.gpus) {
        StartKeepsOneLive(s, e);
      } else {
        OtherKeepsOneLive(s, e);
      }
      if OneLive(Apply(s, e)) {
        OneLiveIffCareful(Apply(s, e), events[1..]);
      }
    }
  }

  lemma FromEmptyDatabase(events: seq<Event>)
    requires Legal(Initial, events)
    ensures AlwaysOneLive(Initial, events) <==> Careful(Initial, events)
  {
    OneLiveIffCareful(Initial, events);
  }
}
