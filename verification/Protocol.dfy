/**
 The control-plane protocol of the server: the shared tables (nodes, deployments, instances, run
 plans, run plan groups, GPU leases, agent tasks) and, for every handler, the state it leaves.

 A handler that answers with an error or an "ignored" acknowledgement leaves the tables alone, so
 `Apply` is total. `Allowed` holds what is not the server's choice: that generated UUIDs are new, and
 which rows SQLite lists first among rows with equal creation times.
 */
module Protocol {
  import opened Results

  /** Ids are only ever compared. 0 stands for the empty string, which no row has as its id. */
  type Id = int
  const NO_ID: Id := 0

  datatype TaskKind = StartTask | StopTask | LogsTask

  datatype TaskStatus =
    | TaskPending | TaskClaimed | TaskInProgress | TaskCompleted | TaskFailed | TaskTimedOut

  datatype InstanceState =
    | InstancePending | InstanceStarting | InstanceProvisioning | InstanceRunning | InstanceHealthy
    | InstanceStopping | InstanceStopped | InstanceFailed

  datatype LeaseStatus = LeaseReserved | LeaseActive | LeaseReleased | LeaseFailed

  datatype DeploymentStatus =
    | DeploymentSaved | DeploymentRunning | DeploymentStopped | DeploymentFailed

  datatype Node = Node(agent: Id, online: bool)

  datatype Deployment = Deployment(desiredRunning: bool, status: DeploymentStatus)

  datatype Instance = Instance(deployment: Id, node: Id, actual: InstanceState, desiredRunning: bool)

  datatype Plan = Plan(deployment: Id, instance: Id)

  datatype Lease = Lease(gpu: Id, node: Id, deployment: Id, instance: Id, status: LeaseStatus, expiresAt: Option<int>)

  datatype Task = Task(kind: TaskKind, status: TaskStatus, deployment: Id, instance: Id, node: Id,
                       createdAt: int, timeout: int, agent: Id, leaseOwner: Id, claimedAt: Option<int>,
                       generation: nat, attempt: nat, retryCount: nat)

  /** What an accepted result did to an instance, in the order the server accepted it. */
  datatype Outcome = StartSucceeded(instance: Id) | StartRejected(instance: Id) | StopSucceeded(instance: Id)

  /** The body of a task result; a field is None when it is absent or has another JSON type. */
  datatype Report = Report(agentId: Option<Id>, status: Option<Word>, errorMessage: Option<string>,
                           error: Option<string>, success: Option<bool>, instanceId: Option<Id>)

  /** The words the status switch tests; every other string is OtherWord. */
  datatype Word = WordCompleted | WordSuccess | WordFailed | WordError | OtherWord

  datatype Verdict = Succeeded | Rejected | Unrecognised

  datatype State = State(nodes: map<Id, Node>, deployments: map<Id, Deployment>, instances: map<Id, Instance>,
                         plans: map<Id, Plan>, groups: map<Id, Id>, leases: map<Id, Lease>, tasks: map<Id, Task>,
                         issued: set<Id>, history: seq<Outcome>)

  const Initial := State(map[], map[], map[], map[], map[], map[], map[], {NO_ID}, [])

  const START_TIMEOUT := 300
  const STOP_TIMEOUT := 90
  const LOGS_TIMEOUT := 30
  const MAX_CLAIM := 10

  datatype Event =
    | RegisterNode(node: Id, agent: Id)
    | MarkOffline(stale: set<Id>)
    | ReportResources(node: Id, agent: Id, system: bool)
    | CreateDeployment(deployment: Id)
    | Start(deployment: Id, node: Id, gpus: map<Id, Id>, preflight: bool, instance: Id, plan: Id, group: Id, task: Id, now: int)
    | DispatchStop(deployment: Id, instance: Id, node: Id, online: bool, task: Id, now: int)
    | FinishStop(deployment: Id)
    | RequestLogs(plan: Id, task: Id, now: int)
    | Heartbeat(node: Id, agent: Id, now: int, picked: seq<Id>, returned: seq<Id>)
    | TaskResult(task: Id, report: Report, now: int)
    | Delete(deployment: Id)

  // ------------------------------------------------------------------------------------------
  // Sweep and claim
  // ------------------------------------------------------------------------------------------

  predicate Unfinished(st: TaskStatus) {
    st == TaskPending || st == TaskClaimed || st == TaskInProgress
  }

  predicate Terminal(st: TaskStatus) {
    st == TaskCompleted || st == TaskFailed || st == TaskTimedOut
  }

  predicate Overdue(t: Task, now: int) {
    now - t.createdAt > t.timeout
  }

  function SweepTask(t: Task, node: Id, now: int): Task {
    if t.node == node && Unfinished(t.status) && Overdue(t, now) then t.(status := TaskTimedOut) else t
  }

  predicate NamedByTimeout(tasks: map<Id, Task>, node: Id, instance: Id) {
    exists t | t in tasks :: tasks[t].status == TaskTimedOut && tasks[t].node == node
                             && tasks[t].instance != NO_ID && tasks[t].instance == instance
  }

  function SweepLease(l: Lease, now: int): Lease {
    if l.expiresAt.Some? && l.expiresAt.value < now && l.status == LeaseReserved then l.(status := LeaseFailed) else l
  }

  predicate OwnsFailure(instances: map<Id, Instance>, deployment: Id) {
    exists i | i in instances :: instances[i].actual == InstanceFailed && instances[i].deployment == deployment
  }

  function SweepTasks(s: State, node: Id, now: int): State {
    s.(tasks := map t | t in s.tasks :: SweepTask(s.tasks[t], node, now))
  }

  function FailTimedOutInstances(s: State, node: Id): State {
    s.(instances := map i | i in s.instances ::
       if NamedByTimeout(s.tasks, node, i) then s.instances[i].(actual := InstanceFailed) else s.instances[i])
  }

  function SweepLeases(s: State, now: int): State {
    s.(leases := map l | l in s.leases :: SweepLease(s.leases[l], now))
  }

  function FailDeployments(s: State): State {
    s.(deployments := map d | d in s.deployments ::
       if OwnsFailure(s.instances, d) then s.deployments[d].(status := DeploymentFailed) else s.deployments[d])
  }

  /** The four UPDATE statements of the sweep, in order. */
  function Sweep(s: State, node: Id, now: int): State {
    FailDeployments(SweepLeases(FailTimedOutInstances(SweepTasks(s, node, now), node), now))
  }

  function PendingOn(tasks: map<Id, Task>, node: Id): set<Id> {
    set t | t in tasks && tasks[t].node == node && tasks[t].status == TaskPending
  }

  function ClaimedAt(tasks: map<Id, Task>, node: Id, agent: Id, now: int): set<Id> {
    set t | t in tasks && tasks[t].node == node && tasks[t].status == TaskClaimed
            && tasks[t].agent == agent && tasks[t].claimedAt == Some(now)
  }

  /** `rows` is a possible answer to ORDER BY created_at ASC LIMIT 10 over the candidates. */
  ghost predicate FirstTen(tasks: map<Id, Task>, candidates: set<Id>, rows: seq<Id>)
    requires candidates <= tasks.Keys
  {
    && |rows| <= MAX_CLAIM
    && (forall k | 0 <= k < |rows| :: rows[k] in candidates)
    && (forall j, k | 0 <= j < k < |rows| :: rows[j] != rows[k] && tasks[rows[j]].createdAt <= tasks[rows[k]].createdAt)
    && (forall c | c in candidates && c !in rows ::
          |rows| == MAX_CLAIM && forall k | 0 <= k < |rows| :: tasks[rows[k]].createdAt <= tasks[c].createdAt)
  }

  function ClaimTask(t: Task, agent: Id, now: int): Task {
    t.(status := TaskClaimed, claimedAt := Some(now), agent := agent, leaseOwner := agent,
       generation := t.generation + 1, attempt := t.attempt + 1, retryCount := t.retryCount + 1)
  }

  function Claim(s: State, agent: Id, now: int, picked: seq<Id>): State {
    s.(tasks := map t | t in s.tasks :: if t in picked then ClaimTask(s.tasks[t], agent, now) else s.tasks[t])
  }

  predicate HeartbeatAccepted(s: State, node: Id, agent: Id) {
    node in s.nodes && (s.nodes[node].agent == NO_ID || s.nodes[node].agent == agent)
  }

  function MarkOnline(s: State, node: Id): State
    requires node in s.nodes
  {
    s.(nodes := s.nodes[node := s.nodes[node].(online := true)])
  }

  /** What a heartbeat leaves before it claims: the node is online and its overdue tasks are swept. */
  function Swept(s: State, node: Id, now: int): State
    requires node in s.nodes
  {
    Sweep(MarkOnline(s, node), node, now)
  }

  // ------------------------------------------------------------------------------------------
  // Task results
  // ------------------------------------------------------------------------------------------

  function ErrorText(r: Report): string {
    r.errorMessage.GetOr(r.error.GetOr(""))
  }

  function VerdictOf(r: Report): Verdict {
    match r.status.GetOr(WordCompleted)
    case WordCompleted | WordSuccess => if r.success.GetOr(true) && ErrorText(r) == "" then Succeeded else Rejected
    case WordFailed | WordError => Rejected
    case OtherWord => Unrecognised
  }

  predicate OwnerMismatch(t: Task, r: Report) {
    t.leaseOwner != NO_ID && r.agentId.GetOr(NO_ID) != NO_ID && t.leaseOwner != r.agentId.GetOr(NO_ID)
  }

  predicate ResultAccepted(s: State, t: Id, r: Report) {
    t in s.tasks && !Terminal(s.tasks[t].status) && !OwnerMismatch(s.tasks[t], r) && VerdictOf(r) != Unrecognised
  }

  function ResultInstance(t: Task, r: Report): Id {
    if t.instance == NO_ID then r.instanceId.GetOr(NO_ID) else t.instance
  }

  function InstanceAfterResult(kind: TaskKind, ok: bool, i: Instance): Instance {
    match kind
    case LogsTask => i
    case StopTask => if ok then i.(actual := InstanceStopped, desiredRunning := false) else i.(actual := InstanceFailed)
    case StartTask => i.(actual := if ok then InstanceRunning else InstanceFailed)
  }

  function LeaseAfterResult(kind: TaskKind, ok: bool, l: Lease): Lease {
    match kind
    case LogsTask => l
    case StopTask => if ok && (l.status == LeaseReserved || l.status == LeaseActive) then l.(status := LeaseReleased) else l
    case StartTask => if l.status == LeaseReserved then l.(status := if ok then LeaseActive else LeaseFailed) else l
  }

  function OutcomeOf(kind: TaskKind, ok: bool, instance: Id): seq<Outcome> {
    match kind
    case LogsTask => []
    case StopTask => if ok then [StopSucceeded(instance)] else []
    case StartTask => [if ok then StartSucceeded(instance) else StartRejected(instance)]
  }

  function Settle(s: State, t: Id, kind: TaskKind, ok: bool, instance: Id): State
    requires t in s.tasks
  {
    var closed := s.(tasks := s.tasks[t := s.tasks[t].(status := if ok then TaskCompleted else TaskFailed)]);
    if instance == NO_ID then closed
    else closed.(
      instances := if instance in s.instances
                   then s.instances[instance := InstanceAfterResult(kind, ok, s.instances[instance])] else s.instances,
      leases := map l | l in s.leases ::
        if s.leases[l].instance == instance then LeaseAfterResult(kind, ok, s.leases[l]) else s.leases[l],
      history := s.history + OutcomeOf(kind, ok, instance))
  }

  // ------------------------------------------------------------------------------------------
  // Start, stop, logs, delete
  // ------------------------------------------------------------------------------------------

  predicate BlocksStart(st: InstanceState) {
    st == InstancePending || st == InstanceStarting || st == InstanceProvisioning || st == InstanceRunning
    || st == InstanceHealthy || st == InstanceStopping
  }

  /** The guard of a start: it lists pending and in_progress tasks, and leaves claimed ones out. */
  predicate StartBlocked(s: State, d: Id) {
    || (exists i | i in s.instances :: s.instances[i].deployment == d && BlocksStart(s.instances[i].actual))
    || (exists t | t in s.tasks :: s.tasks[t].deployment == d && s.tasks[t].kind != LogsTask
                                   && (s.tasks[t].status == TaskPending || s.tasks[t].status == TaskInProgress))
  }

  predicate Holds(l: Lease) {
    l.status == LeaseReserved || l.status == LeaseActive
  }

  predicate GpuHeld(s: State, gpu: Id) {
    exists l | l in s.leases :: s.leases[l].gpu == gpu && Holds(s.leases[l])
  }

  /** The unique index on gpu_leases(gpu_id) over reserved and active rows refuses one of the inserts. */
  predicate IndexRefuses(s: State, gpus: map<Id, Id>) {
    || (exists l | l in gpus :: GpuHeld(s, gpus[l]))
    || (exists l, m | l in gpus && m in gpus :: l != m && gpus[l] == gpus[m])
  }

  predicate StartAccepted(s: State, d: Id, preflight: bool, gpus: map<Id, Id>) {
    !StartBlocked(s, d) && d in s.deployments && preflight && !IndexRefuses(s, gpus)
  }

  function NewTask(kind: TaskKind, d: Id, i: Id, node: Id, now: int, timeout: int): Task {
    Task(kind, TaskPending, d, i, node, now, timeout, NO_ID, NO_ID, None, 0, 1, 0)
  }

  function InsertStart(s: State, d: Id, node: Id, gpus: map<Id, Id>, instance: Id, plan: Id, group: Id, task: Id, now: int): State
    requires d in s.deployments
  {
    s.(instances := s.instances[instance := Instance(d, node, InstancePending, true)],
       groups := s.groups[group := d],
       plans := s.plans[plan := Plan(d, instance)],
       leases := s.leases + map l | l in gpus :: Lease(gpus[l], node, d, instance, LeaseReserved, None),
       tasks := s.tasks[task := NewTask(StartTask, d, instance, node, now, START_TIMEOUT)],
       deployments := s.deployments[d := Deployment(true, DeploymentRunning)],
       issued := s.issued + {instance, plan, group, task} + gpus.Keys)
  }

  /** One turn of the stop handler's loop: mark the instance, then hand a stop task to an online node. */
  function DispatchStopStep(s: State, d: Id, i: Id, node: Id, online: bool, task: Id, now: int): State {
    var marked := if i in s.instances then
        s.(instances := s.instances[i := s.instances[i].(desiredRunning := false,
           actual := if s.instances[i].actual == InstanceRunning then InstanceStopping else s.instances[i].actual)])
      else s;
    if online then
      marked.(tasks := s.tasks[task := NewTask(StopTask, d, i, node, now, STOP_TIMEOUT)], issued := s.issued + {task})
    else marked
  }

  predicate LogsAccepted(s: State, plan: Id) {
    plan in s.plans && s.plans[plan].instance in s.instances
    && s.instances[s.plans[plan].instance].node in s.nodes && s.nodes[s.instances[s.plans[plan].instance].node].online
  }

  function RequestLogsStep(s: State, plan: Id, task: Id, now: int): State {
    if LogsAccepted(s, plan) then
      var p := s.plans[plan];
      s.(tasks := s.tasks[task := NewTask(LogsTask, p.deployment, p.instance, s.instances[p.instance].node, now, LOGS_TIMEOUT)],
         issued := s.issued + {task})
    else s
  }

  /** What is left once the rows of a deployment are gone. */
  function DeleteStep(s: State, d: Id): State {
    if d in s.deployments then
      s.(tasks := map t | t in s.tasks && s.tasks[t].deployment != d :: s.tasks[t],
         plans := map p | p in s.plans && s.plans[p].deployment != d :: s.plans[p],
         groups := map g | g in s.groups && s.groups[g] != d :: s.groups[g],
         leases := map l | l in s.leases && s.leases[l].deployment != d :: s.leases[l],
         instances := map i | i in s.instances && s.instances[i].deployment != d :: s.instances[i],
         deployments := s.deployments - {d})
    else s
  }

  // ------------------------------------------------------------------------------------------
  // Events and runs
  // ------------------------------------------------------------------------------------------

  function Apply(s: State, e: Event): State {
    match e
    case RegisterNode(node, agent) =>
      if node == NO_ID || (node in s.nodes && s.nodes[node].agent != NO_ID && s.nodes[node].agent != agent) then s
      else s.(nodes := s.nodes[node := Node(agent, true)])
    case MarkOffline(stale) =>
      s.(nodes := map n | n in s.nodes :: if n in stale then s.nodes[n].(online := false) else s.nodes[n])
    case ReportResources(node, agent, system) =>
      if agent != NO_ID && node in s.nodes && s.nodes[node].agent == agent && system then MarkOnline(s, node) else s
    case CreateDeployment(d) =>
      s.(deployments := s.deployments[d := Deployment(false, DeploymentSaved)], issued := s.issued + {d})
    case Start(d, node, gpus, preflight, instance, plan, group, task, now) =>
      if StartAccepted(s, d, preflight, gpus) then InsertStart(s, d, node, gpus, instance, plan, group, task, now) else s
    case DispatchStop(d, i, node, online, task, now) => DispatchStopStep(s, d, i, node, online, task, now)
    case FinishStop(d) =>
      if d in s.deployments then s.(deployments := s.deployments[d := Deployment(false, DeploymentStopped)]) else s
    case RequestLogs(plan, task, now) => RequestLogsStep(s, plan, task, now)
    case Heartbeat(node, agent, now, picked, returned) =>
      if HeartbeatAccepted(s, node, agent) then Claim(Swept(s, node, now), agent, now, picked) else s
    case TaskResult(t, report, now) =>
      if ResultAccepted(s, t, report) then
        Settle(s, t, s.tasks[t].kind, VerdictOf(report) == Succeeded, ResultInstance(s.tasks[t], report))
      else s
    case Delete(d) => DeleteStep(s, d)
  }

  ghost predicate HeartbeatAllowed(s: State, node: Id, agent: Id, now: int, picked: seq<Id>, returned: seq<Id>) {
    if HeartbeatAccepted(s, node, agent) then
      var swept := Swept(s, node, now);
      && FirstTen(swept.tasks, PendingOn(swept.tasks, node), picked)
      && var after := Claim(swept, agent, now, picked);
         FirstTen(after.tasks, ClaimedAt(after.tasks, node, agent, now), returned)
    else picked == returned == []
  }

  /** New UUIDs differ from every id issued before; a stop is dispatched for an instance the handler just read. */
  ghost predicate Allowed(s: State, e: Event) {
    match e
    case RegisterNode(_, _) => true
    case MarkOffline(_) => true
    case ReportResources(_, _, _) => true
    case CreateDeployment(d) => d !in s.issued
    case Start(d, node, gpus, _, instance, plan, group, task, _) =>
      ({instance, plan, group, task} + gpus.Keys) !! s.issued
    case DispatchStop(d, i, node, _, task, _) =>
      && d in s.deployments && i in s.instances && s.instances[i].deployment == d && s.instances[i].node == node
      && task !in s.issued
    case FinishStop(_) => true
    case RequestLogs(_, task, _) => task !in s.issued
    case Heartbeat(node, agent, now, picked, returned) => HeartbeatAllowed(s, node, agent, now, picked, returned)
    case TaskResult(_, _, _) => true
    case Delete(_) => true
  }

  /** The state after a run of events. */
  function Run(s: State, events: seq<Event>): State
    decreases |events|
  {
    if events == [] then s else Run(Apply(s, events[0]), events[1..])
  }

  ghost predicate Legal(s: State, events: seq<Event>)
    decreases |events|
  {
    events == [] || (Allowed(s, events[0]) && Legal(Apply(s, events[0]), events[1..]))
  }

  lemma {:induction false} RunConcat(s: State, xs: seq<Event>, ys: seq<Event>)
    ensures Run(s, xs + ys) == Run(Run(s, xs), ys)
    ensures Legal(s, xs + ys) <==> Legal(s, xs) && Legal(Run(s, xs), ys)
    decreases |xs|
  {
    if xs == [] {
      assert xs + ys == ys;
    } else {
      assert (xs + ys)[1..] == xs[1..] + ys;
      RunConcat(Apply(s, xs[0]), xs[1..], ys);
    }
  }
}
