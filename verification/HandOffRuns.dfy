/** Runs from the empty database in which the read-back of a heartbeat hands out too much, or too little. */
module HandOffRuns {
  import opened Collections
  import opened Results
  import opened Protocol
  import opened ProtocolInvariants
  import opened TaskLifeCycle
  import opened SweepAndClaim
  import opened ControlPlaneServer
  import opened HandOff
  import opened Races

  /** Two heartbeats of one agent in one second: the second is handed the task of the first again. */
  lemma HandedOutTwice() returns (events: seq<Event>, e: Event)
    ensures Legal(Initial, events + [E3] + [e]) && e.Heartbeat? && e.now == E3.now
    ensures 7 in E3.returned && 7 in e.returned
  {
    events := UpToStart();
    Step3();
    RunOne(Initial, events, E3);
    ReachableInv(events + [E3]);
    e := SecondBeat();
    RunOne(Initial, events + [E3], e);
  }

  lemma SecondBeat() returns (e: Event)
    requires Inv(S3)
    ensures Allowed(S3, e) && e.Heartbeat? && e.now == 1 && 7 in e.returned
  {
    OneClaimedTask();
    e := SomeBeat(S3, 1, 2, 1);
    StillCompetes(S3, e, 7);
    HandedOutAgain(S3, e, 7);
  }

  lemma OneClaimedTask()
    ensures S3.tasks.Keys == {7} && S3.tasks[7].status == TaskClaimed && S3.tasks[7].node == 1
    ensures S3.tasks[7].agent == 2 && S3.tasks[7].claimedAt == Some(1) && !Overdue(S3.tasks[7], 1)
    ensures HeartbeatAccepted(S3, 1, 2)
  {
  }

  // ------------------------------------------------------------------------------------------
  // Ten older claims in the same second
  // ------------------------------------------------------------------------------------------

  function QueueIds(n: nat): set<Id> {
    if n == 0 then {7} else QueueIds(n - 1) + {99 + n}
  }

  lemma {:induction false} QueueSize(n: nat)
    ensures |QueueIds(n)| == n + 1 && forall i | i in QueueIds(n) :: i < 100 + n
  {
    if n > 0 {
      QueueSize(n - 1);
      assert 99 + n !in QueueIds(n - 1);
    }
  }

  /** Row of a task created at time 0 on node 1, for the instance 4 of the deployment 3. */
  ghost predicate Waiting(t: Task) {
    t.status == TaskPending && t.node == 1 && t.instance == 4 && t.createdAt == 0 && t.timeout >= LOGS_TIMEOUT
  }

  ghost predicate Ready(s: State) {
    1 in s.nodes && s.nodes[1] == Node(2, true) && 5 in s.plans && s.plans[5] == Plan(3, 4)
    && 4 in s.instances && s.instances[4].node == 1
  }

  /** The start task and n requests for logs are pending. */
  ghost predicate Queue(s: State, n: nat) {
    Ready(s) && s.tasks.Keys == QueueIds(n) && (forall t | t in s.tasks :: Waiting(s.tasks[t])) && forall i | i in s.issued :: i < 100 + n
  }

  lemma {:induction false} Queued(n: nat) returns (events: seq<Event>)
    ensures Legal(Initial, events) && Queue(Run(Initial, events), n)
  {
    if n == 0 {
      events := UpToStart();
    } else {
      events := Queued(n - 1);
      var s := Run(Initial, events);
      var e := RequestLogs(5, 99 + n, 0);
      assert LogsAccepted(s, 5);
      RunOne(Initial, events, e);
      events := events + [e];
    }
  }

  lemma BeatKeepsReady(s: State, e: Event)
    requires AcceptedBeat(s, e) && Ready(s)
    ensures Ready(Apply(s, e)) && Apply(s, e).tasks.Keys == s.tasks.Keys && Apply(s, e).issued == s.issued
  {
    HeartbeatRows(s, e.node, e.agent, e.now, e.picked);
  }

  ghost predicate BeatAtOne(s: State, e: Event) {
    AcceptedBeat(s, e) && e.node == 1 && e.agent == 2 && e.now == 1
  }

  /** Row of a task created at time 0 that the heartbeat at time 1 claimed. */
  ghost predicate ClaimedAtOne(t: Task) {
    t.status == TaskClaimed && t.node == 1 && t.agent == 2 && t.claimedAt == Some(1) && t.createdAt == 0 && t.timeout >= LOGS_TIMEOUT
  }

  /** The heartbeat claims all of up to ten. */
  lemma AllClaimed(s: State, e: Event, t: Id)
    requires BeatAtOne(s, e) && t in s.tasks && Waiting(s.tasks[t]) && |s.tasks.Keys| <= MAX_CLAIM
    ensures t in Apply(s, e).tasks && ClaimedAtOne(Apply(s, e).tasks[t])
  {
    PickedSurely(s, e, t, s.tasks.Keys - {t});
  }

  /** Ten tasks were claimed at time 1; one more was created then. */
  ghost predicate Eleventh(s: State, ten: set<Id>, last: Id) {
    && |ten| == MAX_CLAIM && Ready(s) && last in s.tasks && (forall t | t in s.tasks :: t in ten || t == last)
    && s.tasks[last] == NewTask(LogsTask, 3, 4, 1, 1, LOGS_TIMEOUT) && forall t | t in ten :: t in s.tasks && ClaimedAtOne(s.tasks[t])
  }

  lemma OnlyOnePending(s: State, ten: set<Id>, last: Id)
    requires Eleventh(s, ten, last)
    ensures s.tasks[last].status == TaskPending && s.tasks[last].node == 1 && !Overdue(s.tasks[last], 1)
    ensures forall u | u in s.tasks && u != last :: s.tasks[u].status != TaskPending
    ensures forall u | u in ten :: u in s.tasks && s.tasks[u].createdAt < s.tasks[last].createdAt && CompetesAtOne(s.tasks[u])
  {
  }

  ghost predicate CompetesAtOne(t: Task) {
    t.status == TaskClaimed && t.node == 1 && t.agent == 2 && t.claimedAt == Some(1) && !Overdue(t, 1)
  }

  /** The eleventh is claimed, and in no possible answer. */
  lemma ClaimedAndLost(s: State, e: Event, ten: set<Id>, last: Id)
    requires BeatAtOne(s, e) && |ten| == MAX_CLAIM
    requires last in s.tasks && s.tasks[last].status == TaskPending && s.tasks[last].node == 1 && !Overdue(s.tasks[last], 1)
    requires forall u | u in s.tasks && u != last :: s.tasks[u].status != TaskPending
    requires forall u | u in ten :: u in s.tasks && s.tasks[u].createdAt < s.tasks[last].createdAt && CompetesAtOne(s.tasks[u])
    ensures last in e.picked && last !in e.returned
    ensures last in Apply(s, e).tasks && Apply(s, e).tasks[last] == ClaimTask(s.tasks[last], 2, 1)
  {
    PickedSurely(s, e, last, {});
    forall u | u in ten
      ensures u in ClaimedBefore(s, e)
    {
      StillCompetes(s, e, u);
    }
    CrowdedOut(s, e, last, ten);
  }

  /**
   Eleven requests and a claim every time, all in one second: the last one is claimed and in no answer,
   and once it is overdue the next heartbeat fails its instance, although only logs were asked for.
   */
  lemma LostTask() returns (events: seq<Event>, lost: Event, late: Event)
    ensures Legal(Initial, events + [lost] + [late]) && lost.Heartbeat? && 200 in lost.picked && 200 !in lost.returned
    ensures var z := Run(Initial, events + [lost] + [late]);
      && 200 in z.tasks && z.tasks[200].kind == LogsTask && z.tasks[200].status == TaskTimedOut
      && 4 in z.instances && z.instances[4].actual == InstanceFailed
  {
    var ten;
    events, ten := UpToEleventh();
    var s := Run(Initial, events);
    ReachableInv(events);
    lost := SomeBeat(s, 1, 2, 1);
    OnlyOnePending(s, ten, 200);
    ClaimedAndLost(s, lost, ten, 200);
    RunOne(Initial, events, lost);
    InvStep(s, lost);
    BeatKeepsReady(s, lost);
    late := LateBeat(Apply(s, lost), 200);
    RunOne(Initial, events + [lost], late);
  }

  lemma LateBeat(r: State, t: Id) returns (late: Event)
    requires Inv(r) && HeartbeatAccepted(r, 1, 2)
    requires t in r.tasks && r.tasks[t] == ClaimTask(NewTask(LogsTask, 3, 4, 1, 1, LOGS_TIMEOUT), 2, 1)
    ensures Allowed(r, late)
    ensures var z := Apply(r, late);
      && t in z.tasks && z.tasks[t].kind == LogsTask && z.tasks[t].status == TaskTimedOut
      && 4 in z.instances && z.instances[4].actual == InstanceFailed
  {
    late := SomeBeat(r, 1, 2, 40);
    LateFails(r, late, t);
  }

  lemma LateFails(r: State, late: Event, t: Id)
    requires AcceptedBeat(r, late) && late.node == 1 && late.now == 40
    requires t in r.tasks && r.tasks[t] == ClaimTask(NewTask(LogsTask, 3, 4, 1, 1, LOGS_TIMEOUT), 2, 1)
    ensures var z := Apply(r, late);
      && t in z.tasks && z.tasks[t].kind == LogsTask && z.tasks[t].status == TaskTimedOut
      && 4 in z.instances && z.instances[4].actual == InstanceFailed
  {
    OverdueFailsInstance(r, late, t);
  }

  lemma UpToEleventh() returns (events: seq<Event>, ten: set<Id>)
    ensures Legal(Initial, events) && Eleventh(Run(Initial, events), ten, 200)
  {
    events := Queued(9);
    var s := Run(Initial, events);
    ReachableInv(events);
    var e := SomeBeat(s, 1, 2, 1);
    RunOne(Initial, events, e);
    events := events + [e];
    var logs;
    logs, ten := AskForLogs(s, e);
    RunOne(Initial, events, logs);
    events := events + [logs];
  }

  lemma AskForLogs(s: State, e: Event) returns (logs: Event, ten: set<Id>)
    requires Queue(s, 9) && BeatAtOne(s, e)
    ensures Allowed(Apply(s, e), logs) && Eleventh(Apply(Apply(s, e), logs), ten, 200)
  {
    var r := Apply(s, e);
    logs := RequestLogs(5, 200, 1);
    ten := s.tasks.Keys;
    BeatKeepsReady(s, e);
    QueueSize(9);
    forall t | t in ten
      ensures t in r.tasks && ClaimedAtOne(r.tasks[t])
    {
      AllClaimed(s, e, t);
    }
    AddsLogs(r, ten);
  }

  lemma AddsLogs(r: State, ten: set<Id>)
    requires Ready(r) && r.tasks.Keys == ten && |ten| == MAX_CLAIM && 200 !in ten
    requires forall t | t in ten :: t in r.tasks && ClaimedAtOne(r.tasks[t])
    ensures Eleventh(Apply(r, RequestLogs(5, 200, 1)), ten, 200)
  {
    assert LogsAccepted(r, 5);
  }
}
