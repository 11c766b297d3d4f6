/** What a heartbeat guarantees: a closed sweep, an exact hand-off of tasks, and bounded waiting. */
module SweepAndClaim {
  import opened Collections
  import opened Results
  import opened Protocol
  import opened ProtocolInvariants
  import opened LeaseLedger
  import opened TaskLifeCycle

  // ------------------------------------------------------------------------------------------
  // Sweep closure
  // ------------------------------------------------------------------------------------------

  /** Nothing is left for the sweep of this node to do at this time. */
  ghost predicate SweptClean(s: State, node: Id, now: int) {
    && (forall t | t in s.tasks && s.tasks[t].node == node && Unfinished(s.tasks[t].status) :: !Overdue(s.tasks[t], now))
    && (forall t | t in s.tasks && s.tasks[t].node == node && s.tasks[t].status == TaskTimedOut && s.tasks[t].instance != NO_ID
                   && s.tasks[t].instance in s.instances :: s.instances[s.tasks[t].instance].actual == InstanceFailed)
    && (forall l | l in s.leases && s.leases[l].status == LeaseReserved && s.leases[l].expiresAt.Some? :: now <= s.leases[l].expiresAt.value)
    && (forall i | i in s.instances && s.instances[i].actual == InstanceFailed && s.instances[i].deployment in s.deployments ::
          s.deployments[s.instances[i].deployment].status == DeploymentFailed)
  }

  lemma SweepCloses(s: State, node: Id, now: int)
    ensures SweptClean(Sweep(s, node, now), node, now)
  {
    var a := SweepTasks(s, node, now);
    var b := FailTimedOutInstances(a, node);
    var c := SweepLeases(b, now);
    var r := FailDeployments(c);
    assert r.tasks == a.tasks && r.instances == b.instances && r.leases == c.leases;
    forall t | t in a.tasks && a.tasks[t].node == node && a.tasks[t].status == TaskTimedOut && a.tasks[t].instance != NO_ID
               && a.tasks[t].instance in b.instances
      ensures b.instances[a.tasks[t].instance].actual == InstanceFailed
    {
      assert NamedByTimeout(a.tasks, node, a.tasks[t].instance);
    }
    forall i | i in c.instances && c.instances[i].actual == InstanceFailed && c.instances[i].deployment in c.deployments
      ensures r.deployments[c.instances[i].deployment].status == DeploymentFailed
    {
      assert OwnsFailure(c.instances, c.instances[i].deployment);
    }
  }

  lemma CleanTasks(s: State, node: Id, now: int)
    requires SweptClean(s, node, now)
    ensures SweepTasks(s, node, now) == s
  {
    assert forall t | t in s.tasks :: SweepTask(s.tasks[t], node, now) == s.tasks[t];
    assert SweepTasks(s, node, now).tasks == s.tasks;
  }

  lemma CleanInstances(s: State, node: Id, now: int)
    requires SweptClean(s, node, now)
    ensures FailTimedOutInstances(s, node) == s
  {
    forall i | i in s.instances && NamedByTimeout(s.tasks, node, i) ensures s.instances[i].actual == InstanceFailed {
    }
    assert FailTimedOutInstances(s, node).instances == s.instances;
  }

  lemma CleanLeases(s: State, node: Id, now: int)
    requires SweptClean(s, node, now)
    ensures SweepLeases(s, now) == s
  {
    assert forall l | l in s.leases :: SweepLease(s.leases[l], now) == s.leases[l];
    assert SweepLeases(s, now).leases == s.leases;
  }

  lemma CleanDeployments(s: State, node: Id, now: int)
    requires SweptClean(s, node, now)
    ensures FailDeployments(s) == s
  {
    assert FailDeployments(s).deployments == s.deployments;
  }

  /** A clean state is a fixed point of the sweep; a sweep repeated at the same time changes nothing. */
  lemma CleanIsFixed(s: State, node: Id, now: int)
    requires SweptClean(s, node, now)
    ensures Sweep(s, node, now) == s
  {
    CleanTasks(s, node, now);
    CleanInstances(s, node, now);
    CleanLeases(s, node, now);
    CleanDeployments(s, node, now);
  }

  lemma SweepTwice(s: State, node: Id, now: int)
    ensures Sweep(Sweep(s, node, now), node, now) == Sweep(s, node, now)
  {
    SweepCloses(s, node, now);
    CleanIsFixed(Sweep(s, node, now), node, now);
  }

  /**
   Once a task of an instance timed out, every later heartbeat of its node leaves the instance and its
   deployment failed, whatever was accepted in between: not even a successful stop lasts.
   */
  lemma TimeoutOutlivesResults(s: State, events: seq<Event>, t: Id, beat: Event)
    requires Inv(s) && Legal(s, events) && t in s.tasks && s.tasks[t].status == TaskTimedOut
    requires t in Run(s, events).tasks && beat.Heartbeat? && beat.node == s.tasks[t].node
    requires HeartbeatAccepted(Run(s, events), beat.node, beat.agent)
    ensures var r := Apply(Run(s, events), beat); var i := s.tasks[t].instance;
      && i in r.instances && r.instances[i].actual == InstanceFailed
      && r.instances[i].deployment in r.deployments && r.deployments[r.instances[i].deployment].status == DeploymentFailed
  {
    var z := Run(s, events);
    InvRun(s, events);
    TaskLife(s, events, t);
    assert BelongsTo(z.instances, z.deployments.Keys, z.tasks[t].instance, z.tasks[t].deployment);
    var online := MarkOnline(z, beat.node);
    var swept := Sweep(online, beat.node, beat.now);
    SweepCloses(online, beat.node, beat.now);
    SweepRows(online, beat.node, beat.now);
    assert swept.tasks[t] == z.tasks[t];
  }

  /** A task of the node names the instance and has timed out, or does so at this time. */
  ghost predicate TimesOutFor(s: State, node: Id, now: int, i: Id) {
    exists t | t in s.tasks :: s.tasks[t].node == node && s.tasks[t].instance == i && SweepTask(s.tasks[t], node, now).status == TaskTimedOut
  }

  /** An accepted heartbeat fails an instance exactly when a task of its node that timed out, now or earlier, names it; the rest stay as they are. */
  lemma BeatFailsIff(s: State, e: Event, i: Id)
    requires Inv(s) && Allowed(s, e) && e.Heartbeat? && HeartbeatAccepted(s, e.node, e.agent) && i in s.instances
    ensures i in Apply(s, e).instances
    ensures Apply(s, e).instances[i] ==
            if TimesOutFor(s, e.node, e.now, i) then s.instances[i].(actual := InstanceFailed) else s.instances[i]
  {
    var online := MarkOnline(s, e.node);
    var a := SweepTasks(online, e.node, e.now);
    assert NamedByTimeout(a.tasks, e.node, i) <==> TimesOutFor(s, e.node, e.now, i) by {
      if TimesOutFor(s, e.node, e.now, i) {
        var t :| t in s.tasks && s.tasks[t].node == e.node && s.tasks[t].instance == i
                 && SweepTask(s.tasks[t], e.node, e.now).status == TaskTimedOut;
        assert i in s.issued && a.tasks[t].status == TaskTimedOut;
      }
      if NamedByTimeout(a.tasks, e.node, i) {
        var t :| t in a.tasks && a.tasks[t].status == TaskTimedOut && a.tasks[t].node == e.node && a.tasks[t].instance == i;
        assert a.tasks[t] == SweepTask(s.tasks[t], e.node, e.now);
      }
    }
  }

  // ------------------------------------------------------------------------------------------
  // Hand-off
  // ------------------------------------------------------------------------------------------

  lemma {:induction false} DistinctRows(rows: seq<Id>, candidates: set<Id>)
    requires forall k | 0 <= k < |rows| :: rows[k] in candidates
    requires forall j, k | 0 <= j < k < |rows| :: rows[j] != rows[k]
    ensures |rows| <= |candidates|
    ensures |rows| == |candidates| ==> forall c | c in candidates :: c in rows
    decreases |rows|
  {
    if rows != [] {
      var last := rows[|rows| - 1];
      var rest := rows[..|rows| - 1];
      DistinctRows(rest, candidates - {last});
      assert rows == rest + [last];
    }
  }

  /** Rows the read-back of a heartbeat finds besides the ones it just claimed. */
  ghost function ClaimedBefore(s: State, e: Event): set<Id>
    requires e.Heartbeat? && e.node in s.nodes
  {
    ClaimedAt(Swept(s, e.node, e.now).tasks, e.node, e.agent, e.now)
  }

  lemma ReadBackCandidates(s: State, e: Event)
    requires Inv(s) && Allowed(s, e) && e.Heartbeat? && HeartbeatAccepted(s, e.node, e.agent)
    ensures ClaimedAt(Apply(s, e).tasks, e.node, e.agent, e.now) == (set t | t in e.picked) + ClaimedBefore(s, e)
    ensures (set t | t in e.picked) !! ClaimedBefore(s, e)
  {
    var swept := Swept(s, e.node, e.now);
    var after := Claim(swept, e.agent, e.now, e.picked);
    assert forall t | t in e.picked :: t in PendingOn(swept.tasks, e.node);
    forall t | t in swept.tasks
      ensures t in ClaimedAt(after.tasks, e.node, e.agent, e.now) <==> t in e.picked || t in ClaimedBefore(s, e)
    {
    }
  }

  /** Up to ten candidates are all listed. */
  lemma FewAreAllListed(tasks: map<Id, Task>, candidates: set<Id>, rows: seq<Id>)
    requires candidates <= tasks.Keys && FirstTen(tasks, candidates, rows) && |candidates| <= MAX_CLAIM
    ensures forall c | c in candidates :: c in rows
  {
    forall c | c in candidates ensures c in rows {
      if c !in rows {
        DistinctRows(rows, candidates - {c});
      }
    }
  }

  /** With a fresh stamp the agent is handed exactly the tasks it just claimed. */
  lemma FreshStampHandsOff(s: State, e: Event, t: Id)
    requires Inv(s) && Allowed(s, e) && e.Heartbeat? && HeartbeatAccepted(s, e.node, e.agent)
    requires ClaimedBefore(s, e) == {}
    ensures t in e.returned <==> t in e.picked
  {
    ReadBackCandidates(s, e);
    PickedCount(e.picked);
    FewAreListed(Apply(s, e).tasks, ClaimedAt(Apply(s, e).tasks, e.node, e.agent, e.now), (set u | u in e.picked), e.returned, t);
  }

  lemma FewAreListed(tasks: map<Id, Task>, candidates: set<Id>, picked: set<Id>, rows: seq<Id>, t: Id)
    requires candidates <= tasks.Keys && FirstTen(tasks, candidates, rows) && candidates == picked + {} && |picked| <= MAX_CLAIM
    ensures t in rows <==> t in picked
  {
    assert candidates == picked;
    FewAreAllListed(tasks, candidates, rows);
  }

  lemma {:induction false} PickedCount(rows: seq<Id>)
    ensures |set u | u in rows| <= |rows|
    decreases |rows|
  {
    if rows != [] {
      PickedCount(rows[1..]);
      assert (set u | u in rows) == (set u | u in rows[1..]) + {rows[0]};
    }
  }

  /** With a stamp used before, and room left in the batch, the answer holds a task that was claimed before under the stamp. */
  lemma ReusedStampRepeats(s: State, e: Event, t: Id)
    requires Inv(s) && Allowed(s, e) && e.Heartbeat? && HeartbeatAccepted(s, e.node, e.agent)
    requires |e.picked| < MAX_CLAIM && t in ClaimedBefore(s, e)
    ensures exists u :: u in e.returned && u in ClaimedBefore(s, e) && u !in e.picked
  {
    var picked := set u | u in e.picked;
    var candidates := picked + ClaimedBefore(s, e);
    ReadBackCandidates(s, e);
    PickedCount(e.picked);
    ShortListOverflows(Apply(s, e).tasks, candidates, e.returned, picked, t);
  }

  lemma ShortListOverflows(tasks: map<Id, Task>, candidates: set<Id>, rows: seq<Id>, part: set<Id>, t: Id)
    requires candidates <= tasks.Keys && FirstTen(tasks, candidates, rows) && |part| < MAX_CLAIM && t in candidates && t !in part
    ensures exists u :: u in rows && u !in part
  {
    if t !in rows && forall u | u in rows :: u in part {
      DistinctRows(rows, part);
    }
  }

  /** Nothing handed out has outlived its timeout. */
  lemma HandedOutInTime(s: State, e: Event, t: Id)
    requires Inv(s) && Allowed(s, e) && e.Heartbeat? && t in e.returned
    ensures var after := Apply(s, e).tasks;
      && t in after && after[t].status == TaskClaimed && after[t].node == e.node && after[t].agent == e.agent
      && after[t].claimedAt == Some(e.now) && !Overdue(after[t], e.now)
  {
    HeartbeatRows(s, e.node, e.agent, e.now, e.picked);
    SweepRows(MarkOnline(s, e.node), e.node, e.now);
    assert t in ClaimedAt(Apply(s, e).tasks, e.node, e.agent, e.now);
    if t in e.picked {
      PickedRow(s, e.node, e.now, e.picked, t);
    }
  }

  // ------------------------------------------------------------------------------------------
  // No task is handed out twice
  // ------------------------------------------------------------------------------------------

  ghost function Returns(events: seq<Event>, t: Id): nat
    decreases |events|
  {
    if events == [] then 0
    else (if events[0].Heartbeat? && t in events[0].returned then 1 else 0) + Returns(events[1..], t)
  }

  /** The heartbeats of one agent carry distinct timestamps, none of them in `used`. */
  ghost predicate DistinctStamps(events: seq<Event>, used: set<(Id, int)>)
    decreases |events|
  {
    events == [] || if events[0].Heartbeat? then
      (events[0].agent, events[0].now) !in used && DistinctStamps(events[1..], used + {(events[0].agent, events[0].now)})
    else DistinctStamps(events[1..], used)
  }

  ghost predicate StampsIn(tasks: map<Id, Task>, used: set<(Id, int)>) {
    forall t | t in tasks && tasks[t].status == TaskClaimed :: tasks[t].claimedAt.Some? && (tasks[t].agent, tasks[t].claimedAt.value) in used
  }

  lemma StampsStep(s: State, e: Event, used: set<(Id, int)>)
    requires Inv(s) && Allowed(s, e) && StampsIn(s.tasks, used)
    ensures StampsIn(Apply(s, e).tasks, if e.Heartbeat? then used + {(e.agent, e.now)} else used)
  {
    var after := Apply(s, e).tasks;
    var stamps := if e.Heartbeat? then used + {(e.agent, e.now)} else used;
    forall t | t in after && after[t].status == TaskClaimed
      ensures after[t].claimedAt.Some? && (after[t].agent, after[t].claimedAt.value) in stamps
    {
      if t in s.tasks {
        TaskStep(s, e, t);
        assert ClaimsTask(e, t) || after[t] == s.tasks[t];
      } else {
        NewTaskIsPending(s, e, t);
      }
    }
  }

  lemma NewTaskIsPending(s: State, e: Event, t: Id)
    requires Inv(s) && Allowed(s, e) && t !in s.tasks && t in Apply(s, e).tasks
    ensures Apply(s, e).tasks[t].status == TaskPending && (e.Start? || e.DispatchStop? || e.RequestLogs?)
    ensures Apply(s, e).tasks[t].createdAt == e.now && t !in s.issued
  {
    if SparesRows(e) {
      RowsAreSpared(s, e);
      return;
    }
    match e
    case Heartbeat(node, agent, now, picked, _) =>
      if HeartbeatAccepted(s, node, agent) {
        HeartbeatRows(s, node, agent, now, picked);
      }
    case TaskResult(u, report, now) =>
      if ResultAccepted(s, u, report) {
        ResultSettles(s, u, report, now);
        SettleRows(s, u, s.tasks[u].kind, VerdictOf(report) == Succeeded, s.tasks[u].instance);
      }
    case Start(d, node, gpus, preflight, instance, plan, group, task, now) =>
      if StartAccepted(s, d, preflight, gpus) {
        StartRows(s, d, node, gpus, instance, plan, group, task, now);
      }
    case _ =>
  }

  lemma FreshStampFindsNothing(s: State, e: Event, used: set<(Id, int)>)
    requires Inv(s) && e.Heartbeat? && e.node in s.nodes && StampsIn(s.tasks, used) && (e.agent, e.now) !in used
    ensures ClaimedBefore(s, e) == {}
  {
    SweepRows(MarkOnline(s, e.node), e.node, e.now);
    var swept := Swept(s, e.node, e.now).tasks;
    forall t | t in swept ensures t !in ClaimedAt(swept, e.node, e.agent, e.now) {
      assert swept[t] == SweepTask(s.tasks[t], e.node, e.now);
      assert s.tasks[t].status == TaskClaimed ==> (s.tasks[t].agent, s.tasks[t].claimedAt.value) in used;
    }
  }

  lemma {:induction false} ReturnsAreClaims(s: State, events: seq<Event>, used: set<(Id, int)>, t: Id)
    requires Inv(s) && Legal(s, events) && StampsIn(s.tasks, used) && DistinctStamps(events, used)
    ensures Returns(events, t) == Claims(events, t)
    decreases |events|
  {
    if events != [] {
      var e := events[0];
      InvStep(s, e);
      StampsStep(s, e, used);
      if e.Heartbeat? && HeartbeatAccepted(s, e.node, e.agent) {
        FreshStampFindsNothing(s, e, used);
        FreshStampHandsOff(s, e, t);
      }
      ReturnsAreClaims(Apply(s, e), events[1..], if e.Heartbeat? then used + {(e.agent, e.now)} else used, t);
    }
  }

  /** A task is claimed at most once in a run, and never after it left pending. */
  lemma {:induction false} ClaimedOnce(s: State, events: seq<Event>, t: Id)
    requires Inv(s) && Legal(s, events)
    ensures Claims(events, t) <= 1
    ensures t in s.tasks && s.tasks[t].status != TaskPending ==> Claims(events, t) == 0
    ensures t in s.issued && t !in s.tasks ==> Claims(events, t) == 0
    decreases |events|
  {
    if events != [] {
      var e := events[0];
      InvStep(s, e);
      IssuedGrows(s, e);
      ClaimedOnce(Apply(s, e), events[1..], t);
      if t in s.tasks {
        TaskStep(s, e, t);
      } else {
        NotYetClaimed(s, e, t);
        if t in s.issued {
          TaskGoneStep(s, e, t);
        }
      }
    }
  }

  /** Over every run whose heartbeats carry distinct timestamps per agent, no task is handed out twice. */
  lemma HandedOutOnce(events: seq<Event>, t: Id)
    requires Legal(Initial, events) && DistinctStamps(events, {})
    ensures Returns(events, t) == Claims(events, t) <= 1
  {
    ReturnsAreClaims(Initial, events, {}, t);
    ClaimedOnce(Initial, events, t);
  }

  // ------------------------------------------------------------------------------------------
  // Bounded waiting
  // ------------------------------------------------------------------------------------------

  ghost predicate PendingTask(s: State, t: Id) {
    t in s.tasks && s.tasks[t].status == TaskPending
  }

  /** The pending tasks of the same node that may be served before `t`. */
  ghost function Ahead(s: State, t: Id): set<Id>
    requires t in s.tasks
  {
    set u | u in s.tasks && u != t && s.tasks[u].status == TaskPending && s.tasks[u].node == s.tasks[t].node
            && s.tasks[u].createdAt <= s.tasks[t].createdAt
  }

  /** Tasks created during the run are created later than `t` was. */
  ghost predicate CreatesLater(events: seq<Event>, created: int) {
    forall k | 0 <= k < |events| :: (events[k].Start? || events[k].DispatchStop? || events[k].RequestLogs?) ==> events[k].now > created
  }

  /** How many heartbeats of the node were accepted in the run. */
  ghost function Beats(s: State, events: seq<Event>, node: Id): nat
    decreases |events|
  {
    if events == [] then 0
    else (if events[0].Heartbeat? && events[0].node == node && HeartbeatAccepted(s, node, events[0].agent) then 1 else 0)
         + Beats(Apply(s, events[0]), events[1..], node)
  }

  lemma AheadShrinks(s: State, e: Event, t: Id)
    requires Inv(s) && Allowed(s, e) && PendingTask(s, t) && PendingTask(Apply(s, e), t)
    requires CreatesLater([e], s.tasks[t].createdAt)
    ensures Ahead(Apply(s, e), t) <= Ahead(s, t)
    ensures Apply(s, e).tasks[t] == s.tasks[t]
  {
    var r := Apply(s, e);
    TaskStep(s, e, t);
    assert [e][0] == e;
    forall u | u in Ahead(r, t) ensures u in Ahead(s, t) {
      if u in s.tasks {
        TaskStep(s, e, u);
      } else {
        NewTaskIsPending(s, e, u);
      }
    }
  }

  lemma ServedAhead(s: State, e: Event, t: Id, u: Id)
    requires Inv(s) && Allowed(s, e) && PendingTask(s, t) && PendingTask(Apply(s, e), t) && Apply(s, e).tasks[t] == s.tasks[t]
    requires e.Heartbeat? && e.node == s.tasks[t].node && HeartbeatAccepted(s, e.node, e.agent) && u in e.picked && t != u
    requires Swept(s, e.node, e.now).tasks[u].createdAt <= s.tasks[t].createdAt
    ensures u in Ahead(s, t) && u !in Ahead(Apply(s, e), t)
  {
    PickedRow(s, e.node, e.now, e.picked, u);
    SweepRows(MarkOnline(s, e.node), e.node, e.now);
    TaskStep(s, e, u);
  }

  /** A row left out of a list of ten is newer than all of the list. */
  lemma LeftOut(tasks: map<Id, Task>, candidates: set<Id>, rows: seq<Id>, t: Id)
    requires candidates <= tasks.Keys && FirstTen(tasks, candidates, rows) && t in candidates && t !in rows
    ensures |rows| == MAX_CLAIM && forall k | 0 <= k < |rows| :: tasks[rows[k]].createdAt <= tasks[t].createdAt
    ensures forall j, k | 0 <= j < k < |rows| :: rows[j] != rows[k]
  {
  }

  lemma TenWerePicked(s: State, e: Event, t: Id)
    requires Inv(s) && Allowed(s, e) && PendingTask(s, t) && PendingTask(Apply(s, e), t)
    requires e.Heartbeat? && e.node == s.tasks[t].node && HeartbeatAccepted(s, e.node, e.agent)
    ensures |e.picked| == MAX_CLAIM && forall j, k | 0 <= j < k < |e.picked| :: e.picked[j] != e.picked[k]
    ensures forall k | 0 <= k < |e.picked| :: e.picked[k] != t && e.picked[k] in Swept(s, e.node, e.now).tasks
              && Swept(s, e.node, e.now).tasks[e.picked[k]].createdAt <= s.tasks[t].createdAt
  {
    var swept := Swept(s, e.node, e.now);
    TaskStep(s, e, t);
    SweepRows(MarkOnline(s, e.node), e.node, e.now);
    assert t in PendingOn(swept.tasks, e.node) && t !in e.picked;
    LeftOut(swept.tasks, PendingOn(swept.tasks, e.node), e.picked, t);
  }

  lemma TenLeave(before: set<Id>, after: set<Id>, rows: seq<Id>)
    requires after <= before && |rows| == MAX_CLAIM && forall k | 0 <= k < |rows| :: rows[k] in before - after
    requires forall j, k | 0 <= j < k < |rows| :: rows[j] != rows[k]
    ensures |after| + MAX_CLAIM <= |before|
  {
    DistinctRows(rows, before - after);
    assert before == after + (before - after);
  }

  /** A heartbeat that leaves `t` pending served ten tasks ahead of it. */
  lemma BeatServesTen(s: State, e: Event, t: Id)
    requires Inv(s) && Allowed(s, e) && PendingTask(s, t) && PendingTask(Apply(s, e), t)
    requires e.Heartbeat? && e.node == s.tasks[t].node && HeartbeatAccepted(s, e.node, e.agent)
    ensures |Ahead(Apply(s, e), t)| + MAX_CLAIM <= |Ahead(s, t)|
  {
    assert [e][0] == e;
    AheadShrinks(s, e, t);
    TenWerePicked(s, e, t);
    var before, after := Ahead(s, t), Ahead(Apply(s, e), t);
    forall k | 0 <= k < |e.picked|
      ensures e.picked[k] in before - after
    {
      ServedAhead(s, e, t, e.picked[k]);
    }
    TenLeave(before, after, e.picked);
  }

  lemma {:induction false} WaitingCosts(s: State, events: seq<Event>, t: Id)
    requires Inv(s) && Legal(s, events) && PendingTask(s, t) && PendingTask(Run(s, events), t)
    requires CreatesLater(events, s.tasks[t].createdAt)
    ensures MAX_CLAIM * Beats(s, events, s.tasks[t].node) <= |Ahead(s, t)|
    decreases |events|
  {
    if events != [] {
      var e := events[0];
      var r := Apply(s, e);
      InvStep(s, e);
      StillPending(s, e, events[1..], t);
      assert CreatesLater([e], s.tasks[t].createdAt) by {
        assert events[0] == [e][0];
      }
      AheadShrinks(s, e, t);
      WaitingCosts(r, events[1..], t);
      if e.Heartbeat? && e.node == s.tasks[t].node && HeartbeatAccepted(s, e.node, e.agent) {
        BeatServesTen(s, e, t);
      } else {
        SubsetSize(Ahead(r, t), Ahead(s, t));
      }
    }
  }

  lemma StillPending(s: State, e: Event, rest: seq<Event>, t: Id)
    requires Inv(s) && Allowed(s, e) && Legal(Apply(s, e), rest) && PendingTask(s, t) && PendingTask(Run(Apply(s, e), rest), t)
    ensures PendingTask(Apply(s, e), t)
  {
    InvStep(s, e);
    IssuedGrows(s, e);
    if t in Apply(s, e).tasks {
      TaskLife(Apply(s, e), rest, t);
    } else {
      TaskGone(Apply(s, e), rest, t);
    }
  }

  /** A pending task with k pending tasks ahead of it leaves pending within k/10 + 1 heartbeats of its node. */
  lemma BoundedWaiting(s: State, events: seq<Event>, t: Id)
    requires Inv(s) && Legal(s, events) && PendingTask(s, t) && CreatesLater(events, s.tasks[t].createdAt)
    requires Beats(s, events, s.tasks[t].node) >= |Ahead(s, t)| / MAX_CLAIM + 1
    ensures !PendingTask(Run(s, events), t)
  {
    if PendingTask(Run(s, events), t) {
      WaitingCosts(s, events, t);
    }
  }
}
