/**
 The server's GPU table: a report inserts or updates one row for each GPU of a node and marks the rows
 it does not mention; registering, reporting and transferring a node keep the tenant of its rows.
 */
module Inventory {
  import opened Collections
  import opened Results
  import opened Texts
  import opened GpuMerge

  type Id = int

  const NO_TENANT: Id := 0
  const DEFAULT_TENANT: Id := 1

  const UNAVAILABLE := Text("unavailable")

  datatype Row = Row(node: Id, tenant: Id, gpu: Resource)

  type Rows = map<Id, Row>

  /** Nodes are known by their tenant. */
  datatype State = State(nodes: map<Id, Id>, rows: Rows)

  const Initial := State(map[], map[])

  // ------------------------------------------------------------------------------------------
  // One report
  // ------------------------------------------------------------------------------------------

  function ReportKey(g: Resource): Text {
    Text(g.vendor.chars + (":" + if g.uuid != NO_TEXT then g.uuid.chars else PrintIndex(g.index)))
  }

  /** The key a stored row is looked up by: an empty UUID is not replaced by the index here. */
  function StoredKey(r: Row): Text {
    Text(r.gpu.vendor.chars + (":" + r.gpu.uuid.chars))
  }

  function ReportKeys(gs: seq<Resource>): set<Text> {
    set g | g in gs :: ReportKey(g)
  }

  predicate IsRowOf(r: Row, node: Id, uuid: Text) {
    r.node == node && r.gpu.uuid == uuid
  }

  predicate HasRow(rows: Rows, node: Id, uuid: Text) {
    exists i | i in rows :: IsRowOf(rows[i], node, uuid)
  }

  /** A missing total is derived from what is used and free, in 64 bits. */
  function Stored(g: Resource): Resource {
    var sum := (g.memoryUsed + g.memoryFree) % 0x1_0000_0000_0000_0000;
    if g.memoryTotal == 0 && sum > 0 then g.(memoryTotal := sum) else g
  }

  /** An update keeps the tenant and the PCI bus id of the row. */
  function UpdateRow(r: Row, g: Resource): Row {
    r.(gpu := Stored(g).(pciBusId := r.gpu.pciBusId))
  }

  function Upsert(rows: Rows, node: Id, tenant: Id, g: Resource, id: Id): Rows {
    if HasRow(rows, node, g.uuid) then
      map i | i in rows :: if IsRowOf(rows[i], node, g.uuid) then UpdateRow(rows[i], g) else rows[i]
    else rows[id := Row(node, tenant, Stored(g))]
  }

  function UpsertAll(rows: Rows, node: Id, tenant: Id, gs: seq<Resource>, ids: seq<Id>): Rows
    requires |ids| == |gs|
  {
    if gs == [] then rows
    else Upsert(UpsertAll(rows, node, tenant, gs[..|gs| - 1], ids[..|gs| - 1]), node, tenant, gs[|gs| - 1], ids[|gs| - 1])
  }

  predicate Unmentioned(r: Row, node: Id, keys: set<Text>) {
    r.node == node && r.gpu.status != UNAVAILABLE && StoredKey(r) !in keys
  }

  function MarkMissing(rows: Rows, node: Id, keys: set<Text>): Rows {
    map i | i in rows :: if Unmentioned(rows[i], node, keys) then rows[i].(gpu := rows[i].gpu.(status := UNAVAILABLE)) else rows[i]
  }

  function Reported(rows: Rows, node: Id, tenant: Id, gs: seq<Resource>, ids: seq<Id>): Rows
    requires |ids| == |gs|
  {
    var after := UpsertAll(rows, node, tenant, gs, ids);
    if gs == [] then after else MarkMissing(after, node, ReportKeys(gs))
  }

  // ------------------------------------------------------------------------------------------
  // Steps
  // ------------------------------------------------------------------------------------------

  datatype Event =
    | Register(node: Id)
    | ReportGpus(node: Id, gpus: seq<Resource>, ids: seq<Id>)
    | MarkStale(node: Id, stale: set<Id>)
    | Transfer(node: Id, tenant: Id, permitted: bool, activeLeases: nat, activeInstances: nat)

  function OwnerOf(tenant: Id): Id {
    if tenant == NO_TENANT then DEFAULT_TENANT else tenant
  }

  function Apply(s: State, e: Event): State {
    match e
    case Register(node) => if node in s.nodes then s else s.(nodes := s.nodes[node := DEFAULT_TENANT])
    case ReportGpus(node, gpus, ids) =>
      if node in s.nodes && |ids| == |gpus| then s.(rows := Reported(s.rows, node, OwnerOf(s.nodes[node]), gpus, ids)) else s
    case MarkStale(node, stale) =>
      s.(rows := map i | i in s.rows ::
         if s.rows[i].node == node && i in stale then s.rows[i].(gpu := s.rows[i].gpu.(status := UNAVAILABLE)) else s.rows[i])
    case Transfer(node, tenant, permitted, activeLeases, activeInstances) =>
      if node !in s.nodes || tenant == NO_TENANT || !permitted || activeLeases > 0 || activeInstances > 0 then s
      else State(s.nodes[node := tenant],
                 map i | i in s.rows :: if s.rows[i].node == node then s.rows[i].(tenant := tenant) else s.rows[i])
  }

  ghost predicate Fresh(rows: Rows, ids: seq<Id>) {
    (forall k | 0 <= k < |ids| :: ids[k] !in rows) && forall j, k | 0 <= j < k < |ids| :: ids[j] != ids[k]
  }

  /** Generated row ids are new. */
  ghost predicate Allowed(s: State, e: Event) {
    e.ReportGpus? ==> |e.ids| == |e.gpus| && Fresh(s.rows, e.ids)
  }

  ghost predicate UniqueRows(rows: Rows) {
    forall i, j | i in rows && j in rows && i != j :: rows[i].node != rows[j].node || rows[i].gpu.uuid != rows[j].gpu.uuid
  }

  /** One row for each node and UUID, and every row carries the tenant of its node. */
  ghost predicate Valid(s: State) {
    && UniqueRows(s.rows)
    && (forall n | n in s.nodes :: s.nodes[n] != NO_TENANT)
    && (forall i | i in s.rows :: s.rows[i].node in s.nodes && s.rows[i].tenant == s.nodes[s.rows[i].node])
  }

  function Run(s: State, events: seq<Event>): State {
    if events == [] then s else Apply(Run(s, events[..|events| - 1]), events[|events| - 1])
  }

  ghost predicate Legal(s: State, events: seq<Event>) {
    forall k | 0 <= k < |events| :: Allowed(Run(s, events[..k]), events[k])
  }

  // ------------------------------------------------------------------------------------------
  // Rows after the upserts
  // ------------------------------------------------------------------------------------------

  ghost predicate Mentions(gs: seq<Resource>, uuid: Text) {
    exists k | 0 <= k < |gs| :: gs[k].uuid == uuid
  }

  /** Old rows stay, only those of the node with a reported UUID change, and new rows are of that kind. */
  ghost predicate Extends(rows: Rows, after: Rows, node: Id, tenant: Id, gs: seq<Resource>) {
    && (forall i | i in rows :: i in after && after[i].node == rows[i].node && after[i].tenant == rows[i].tenant
          && after[i].gpu.uuid == rows[i].gpu.uuid
          && (rows[i].node != node || !Mentions(gs, rows[i].gpu.uuid) ==> after[i] == rows[i]))
    && (forall i | i in after && i !in rows :: after[i].node == node && after[i].tenant == tenant && Mentions(gs, after[i].gpu.uuid))
  }

  lemma UpsertRows(rows: Rows, node: Id, tenant: Id, g: Resource, id: Id)
    requires UniqueRows(rows) && id !in rows
    ensures UniqueRows(Upsert(rows, node, tenant, g, id)) && Extends(rows, Upsert(rows, node, tenant, g, id), node, tenant, [g])
    ensures exists i :: i in Upsert(rows, node, tenant, g, id) && IsRowOf(Upsert(rows, node, tenant, g, id)[i], node, g.uuid)
                        && Upsert(rows, node, tenant, g, id)[i] == UpdateRow(Upsert(rows, node, tenant, g, id)[i], g)
  {
    var after := Upsert(rows, node, tenant, g, id);
    assert Mentions([g], [g][0].uuid);
    if HasRow(rows, node, g.uuid) {
      var i :| i in rows && IsRowOf(rows[i], node, g.uuid);
      assert after[i] == UpdateRow(after[i], g);
    } else {
      assert after[id] == UpdateRow(after[id], g);
    }
  }

  lemma ExtendsNext(rows: Rows, mid: Rows, after: Rows, node: Id, tenant: Id, gs: seq<Resource>, g: Resource)
    requires Extends(rows, mid, node, tenant, gs) && Extends(mid, after, node, tenant, [g])
    ensures Extends(rows, after, node, tenant, gs + [g])
  {
    MentionsNext(gs, g);
  }

  lemma MentionsNext(gs: seq<Resource>, g: Resource)
    ensures forall u :: Mentions(gs + [g], u) <==> Mentions(gs, u) || u == g.uuid
    ensures forall u :: Mentions([g], u) <==> u == g.uuid
  {
    assert [g][0] == g;
    forall u | Mentions(gs, u)
      ensures Mentions(gs + [g], u)
    {
      var k :| 0 <= k < |gs| && gs[k].uuid == u;
      assert (gs + [g])[k].uuid == u;
    }
    assert (gs + [g])[|gs|] == g;
  }

  lemma {:induction false} UpsertAllExtends(rows: Rows, node: Id, tenant: Id, gs: seq<Resource>, ids: seq<Id>)
    requires UniqueRows(rows) && |ids| == |gs| && Fresh(rows, ids)
    ensures var after := UpsertAll(rows, node, tenant, gs, ids);
      && UniqueRows(after) && Extends(rows, after, node, tenant, gs)
      && forall i | i in after && i !in rows :: i in ids
  {
    if gs != [] {
      var n := |gs| - 1;
      var mid := UpsertAll(rows, node, tenant, gs[..n], ids[..n]);
      UpsertAllExtends(rows, node, tenant, gs[..n], ids[..n]);
      assert ids[n] !in ids[..n];
      UpsertRows(mid, node, tenant, gs[n], ids[n]);
      ExtendsNext(rows, mid, UpsertAll(rows, node, tenant, gs, ids), node, tenant, gs[..n], gs[n]);
      assert gs == gs[..n] + [gs[n]];
    }
  }

  /** Every column is the report's but the PCI bus id; a missing total is what is used and free together, in 64 bits. */
  ghost predicate StoredAs(stored: Resource, g: Resource, pciBusId: Text) {
    stored == Resource(g.vendor, g.index, g.uuid, g.name, pciBusId, g.driver,
      if g.memoryTotal == 0 then (g.memoryUsed + g.memoryFree) % 0x1_0000_0000_0000_0000 else g.memoryTotal,
      g.memoryUsed, g.memoryFree, g.readings, g.health, g.status, g.collectedAt)
  }

  /** A reported GPU changes the row of its node and UUID, which keeps its tenant and PCI bus id, or adds one. */
  lemma UpsertOutcome(rows: Rows, node: Id, tenant: Id, g: Resource, id: Id)
    requires id !in rows
    ensures var after := Upsert(rows, node, tenant, g, id);
      if exists i :: i in rows && rows[i].node == node && rows[i].gpu.uuid == g.uuid then
        && after.Keys == rows.Keys
        && forall i | i in rows :: after[i].node == rows[i].node && after[i].tenant == rows[i].tenant
             && if rows[i].node == node && rows[i].gpu.uuid == g.uuid then StoredAs(after[i].gpu, g, rows[i].gpu.pciBusId) else after[i] == rows[i]
      else
        && after.Keys == rows.Keys + {id} && (forall i | i in rows :: after[i] == rows[i])
        && after[id].node == node && after[id].tenant == tenant && StoredAs(after[id].gpu, g, g.pciBusId)
  {
  }

  /** The row of the GPU holds what was reported of it. */
  ghost predicate Holds(r: Row, node: Id, g: Resource) {
    r.node == node && StoredAs(r.gpu, g, r.gpu.pciBusId)
  }

  ghost predicate HoldsAt(rows: Rows, i: Id, node: Id, g: Resource) {
    i in rows && Holds(rows[i], node, g)
  }

  ghost predicate Recorded(rows: Rows, node: Id, g: Resource) {
    exists i :: HoldsAt(rows, i, node, g)
  }

  ghost predicate DistinctUuids(gs: seq<Resource>) {
    (forall k | 0 <= k < |gs| :: gs[k].uuid != NO_TEXT) && forall j, k | 0 <= j < k < |gs| :: gs[j].uuid != gs[k].uuid
  }

  /** The last upsert stores its GPU and leaves the rows of other UUIDs alone. */
  lemma UpsertHolds(rows: Rows, node: Id, tenant: Id, g: Resource, id: Id, other: Resource)
    requires UniqueRows(rows) && id !in rows
    ensures Recorded(Upsert(rows, node, tenant, g, id), node, g)
    ensures other.uuid != g.uuid && Recorded(rows, node, other) ==> Recorded(Upsert(rows, node, tenant, g, id), node, other)
  {
    var after := Upsert(rows, node, tenant, g, id);
    UpsertRows(rows, node, tenant, g, id);
    var i :| i in after && IsRowOf(after[i], node, g.uuid) && after[i] == UpdateRow(after[i], g);
    assert HoldsAt(after, i, node, g);
    if other.uuid != g.uuid && Recorded(rows, node, other) {
      var j :| HoldsAt(rows, j, node, other);
      assert HoldsAt(after, j, node, other);
    }
  }

  lemma LastUpsertHolds(rows: Rows, node: Id, tenant: Id, gs: seq<Resource>, ids: seq<Id>, g: Resource)
    requires UniqueRows(rows) && |ids| == |gs| > 0 && Fresh(rows, ids) && DistinctUuids(gs) && g in gs
    requires g == gs[|gs| - 1] || Recorded(UpsertAll(rows, node, tenant, gs[..|gs| - 1], ids[..|gs| - 1]), node, g)
    ensures Recorded(UpsertAll(rows, node, tenant, gs, ids), node, g)
  {
    var n := |gs| - 1;
    UpsertAllExtends(rows, node, tenant, gs[..n], ids[..n]);
    assert ids[n] !in ids[..n];
    UpsertHolds(UpsertAll(rows, node, tenant, gs[..n], ids[..n]), node, tenant, gs[n], ids[n], g);
  }

  lemma {:induction false} UpsertAllHolds(rows: Rows, node: Id, tenant: Id, gs: seq<Resource>, ids: seq<Id>, k: nat)
    requires UniqueRows(rows) && |ids| == |gs| && Fresh(rows, ids) && DistinctUuids(gs) && k < |gs|
    ensures Recorded(UpsertAll(rows, node, tenant, gs, ids), node, gs[k])
  {
    var n := |gs| - 1;
    if k < n {
      UpsertAllHolds(rows, node, tenant, gs[..n], ids[..n], k);
    }
    LastUpsertHolds(rows, node, tenant, gs, ids, gs[k]);
  }

  // ------------------------------------------------------------------------------------------
  // Invariants over runs
  // ------------------------------------------------------------------------------------------

  lemma StepKeepsValid(s: State, e: Event)
    requires Valid(s) && Allowed(s, e)
    ensures Valid(Apply(s, e))
  {
    if e.ReportGpus? && e.node in s.nodes {
      UpsertAllExtends(s.rows, e.node, s.nodes[e.node], e.gpus, e.ids);
      MarkingKeeps(UpsertAll(s.rows, e.node, s.nodes[e.node], e.gpus, e.ids), e.node, ReportKeys(e.gpus));
    }
  }

  lemma MarkingKeeps(rows: Rows, node: Id, keys: set<Text>)
    requires UniqueRows(rows)
    ensures UniqueRows(MarkMissing(rows, node, keys))
    ensures forall i | i in rows :: MarkMissing(rows, node, keys)[i].node == rows[i].node && MarkMissing(rows, node, keys)[i].tenant == rows[i].tenant
  {
  }

  /** In every reachable state a node and UUID have one row at most, and a row has the tenant of its node. */
  lemma {:induction false} RunIsValid(events: seq<Event>)
    requires Legal(Initial, events)
    ensures Valid(Run(Initial, events))
  {
    if events != [] {
      var n := |events| - 1;
      assert forall k | 0 <= k < n :: events[..n][..k] == events[..k];
      RunIsValid(events[..n]);
      StepKeepsValid(Run(Initial, events[..n]), events[n]);
    }
  }

  /** A report touches rows of its node alone, keeps every row's tenant, and without a GPU touches none. */
  lemma ReportOutcome(s: State, node: Id, gs: seq<Resource>, ids: seq<Id>)
    requires Valid(s) && Allowed(s, ReportGpus(node, gs, ids))
    ensures var r := Apply(s, ReportGpus(node, gs, ids));
      && r.nodes == s.nodes && (forall i | i in s.rows :: i in r.rows && r.rows[i].node == s.rows[i].node && r.rows[i].tenant == s.rows[i].tenant)
      && (forall i | i in s.rows && s.rows[i].node != node :: r.rows[i] == s.rows[i])
      && (forall i | i in r.rows && i !in s.rows :: i in ids && r.rows[i].node == node && node in s.nodes && r.rows[i].tenant == s.nodes[node])
      && (node !in s.nodes || gs == [] ==> r == s)
  {
    if node in s.nodes {
      UpsertAllExtends(s.rows, node, s.nodes[node], gs, ids);
    }
  }

  /** Stale rows of the node, and no others, become unavailable. */
  lemma StaleOutcome(s: State, node: Id, stale: set<Id>)
    ensures var r := Apply(s, MarkStale(node, stale));
      && r.nodes == s.nodes && r.rows.Keys == s.rows.Keys
      && forall i | i in s.rows :: r.rows[i] == if i in stale && s.rows[i].node == node
           then s.rows[i].(gpu := s.rows[i].gpu.(status := Text("unavailable"))) else s.rows[i]
  {
  }

  /** A node moves to a named tenant with all its rows, if the caller may and nothing is running there or leased. */
  lemma TransferOutcome(s: State, node: Id, tenant: Id, permitted: bool, activeLeases: nat, activeInstances: nat)
    ensures var r := Apply(s, Transfer(node, tenant, permitted, activeLeases, activeInstances));
      if node in s.nodes && tenant != NO_TENANT && permitted && activeLeases == 0 && activeInstances == 0 then
        && r.nodes == s.nodes[node := tenant] && r.rows.Keys == s.rows.Keys
        && forall i | i in s.rows :: r.rows[i] == if s.rows[i].node == node then s.rows[i].(tenant := tenant) else s.rows[i]
      else r == s
  {
  }

  // ------------------------------------------------------------------------------------------
  // Agreement with the report
  // ------------------------------------------------------------------------------------------

  /** The row is not mentioned, but looks it: its key is the key of a reported GPU. */
  ghost predicate CollidesAt(rows: Rows, i: Id, node: Id, gs: seq<Resource>) {
    i in rows && rows[i].node == node && rows[i].gpu.status != Text("unavailable")
    && !Mentions(gs, rows[i].gpu.uuid) && LooksReported(rows[i].gpu, gs)
  }

  /** Vendor and UUID, joined with a colon, give the same text as those of a reported GPU. */
  ghost predicate LooksReported(stored: Resource, gs: seq<Resource>) {
    exists g | g in gs :: stored.vendor.chars + (":" + stored.uuid.chars) == g.vendor.chars + (":" + g.uuid.chars)
  }

  lemma LooksReportedIff(r: Row, gs: seq<Resource>)
    requires forall k | 0 <= k < |gs| :: gs[k].uuid != NO_TEXT
    ensures LooksReported(r.gpu, gs) <==> StoredKey(r) in ReportKeys(gs)
  {
    assert forall g | g in gs :: ReportKey(g) == Text(g.vendor.chars + (":" + g.uuid.chars));
    if StoredKey(r) in ReportKeys(gs) {
      var g :| g in gs && ReportKey(g) == StoredKey(r);
    }
    if LooksReported(r.gpu, gs) {
      var g :| g in gs && r.gpu.vendor.chars + (":" + r.gpu.uuid.chars) == g.vendor.chars + (":" + g.uuid.chars);
      assert ReportKey(g) == StoredKey(r);
    }
  }

  ghost predicate ReportedUp(gs: seq<Resource>, uuid: Text) {
    exists k | 0 <= k < |gs| :: gs[k].uuid == uuid && gs[k].status != Text("unavailable")
  }

  /** The rows of the node that are not unavailable are the reported GPUs that are not. */
  ghost predicate Agrees(rows: Rows, node: Id, gs: seq<Resource>) {
    forall i | i in rows && rows[i].node == node :: RowAgrees(rows[i], gs)
  }

  ghost predicate RowAgrees(r: Row, gs: seq<Resource>) {
    r.gpu.status != Text("unavailable") <==> ReportedUp(gs, r.gpu.uuid)
  }

  lemma HeldIsMentioned(r: Row, node: Id, gs: seq<Resource>, k: nat)
    requires k < |gs| && gs[k].uuid != NO_TEXT && Holds(r, node, gs[k])
    ensures StoredKey(r) in ReportKeys(gs)
  {
    assert r.gpu.vendor == gs[k].vendor && StoredKey(r) == ReportKey(gs[k]);
  }

  /** Marking leaves the row of every reported GPU alone. */
  lemma ReportHolds(rows: Rows, node: Id, tenant: Id, gs: seq<Resource>, ids: seq<Id>, k: nat)
    requires UniqueRows(rows) && |ids| == |gs| && Fresh(rows, ids) && DistinctUuids(gs) && k < |gs|
    ensures Recorded(Reported(rows, node, tenant, gs, ids), node, gs[k])
  {
    UpsertAllHolds(rows, node, tenant, gs, ids, k);
    var mid := UpsertAll(rows, node, tenant, gs, ids);
    var i :| HoldsAt(mid, i, node, gs[k]);
    HeldIsMentioned(mid[i], node, gs, k);
    assert HoldsAt(Reported(rows, node, tenant, gs, ids), i, node, gs[k]);
  }

  /** A row of the node agrees with the report unless it was there before and collides. */
  lemma RowAgreesIff(rows: Rows, node: Id, tenant: Id, gs: seq<Resource>, ids: seq<Id>, i: Id)
    requires UniqueRows(rows) && |ids| == |gs| && Fresh(rows, ids) && DistinctUuids(gs) && gs != []
    requires i in Reported(rows, node, tenant, gs, ids) && Reported(rows, node, tenant, gs, ids)[i].node == node
    ensures RowAgrees(Reported(rows, node, tenant, gs, ids)[i], gs) <==> !CollidesAt(rows, i, node, gs)
  {
    var mid := UpsertAll(rows, node, tenant, gs, ids);
    UpsertAllExtends(rows, node, tenant, gs, ids);
    var uuid := mid[i].gpu.uuid;
    LooksReportedIff(mid[i], gs);
    if Mentions(gs, uuid) {
      var k :| 0 <= k < |gs| && gs[k].uuid == uuid;
      ReportHolds(rows, node, tenant, gs, ids, k);
      var j :| HoldsAt(Reported(rows, node, tenant, gs, ids), j, node, gs[k]);
      MarkingKeeps(mid, node, ReportKeys(gs));
      assert i == j;
      assert forall l | 0 <= l < |gs| && gs[l].uuid == uuid :: l == k;
    }
  }

  /**
   After a report of distinct non-empty UUIDs, each reported GPU has a row that holds what was reported,
   and the table agrees with the report exactly when no row left out of it has the key of a reported GPU.
   */
  lemma ReportAgreesIff(s: State, node: Id, gs: seq<Resource>, ids: seq<Id>)
    requires Valid(s) && Allowed(s, ReportGpus(node, gs, ids)) && node in s.nodes && gs != [] && DistinctUuids(gs)
    ensures var after := Apply(s, ReportGpus(node, gs, ids)).rows;
      && (forall k | 0 <= k < |gs| :: Recorded(after, node, gs[k]))
      && (Agrees(after, node, gs) <==> forall i :: !CollidesAt(s.rows, i, node, gs))
  {
    var tenant := s.nodes[node];
    var after := Reported(s.rows, node, tenant, gs, ids);
    forall k | 0 <= k < |gs|
      ensures Recorded(after, node, gs[k])
    {
      ReportHolds(s.rows, node, tenant, gs, ids, k);
    }
    RowsAgreeIff(s.rows, node, tenant, gs, ids);
  }

  lemma RowsAgreeIff(rows: Rows, node: Id, tenant: Id, gs: seq<Resource>, ids: seq<Id>)
    requires UniqueRows(rows) && |ids| == |gs| && Fresh(rows, ids) && DistinctUuids(gs) && gs != []
    ensures Agrees(Reported(rows, node, tenant, gs, ids), node, gs) <==> forall i :: !CollidesAt(rows, i, node, gs)
  {
    var after := Reported(rows, node, tenant, gs, ids);
    CollidingRowStays(rows, node, tenant, gs, ids);
    if i :| CollidesAt(rows, i, node, gs) {
      RowAgreesIff(rows, node, tenant, gs, ids, i);
      assert !RowAgrees(after[i], gs);
    } else if !Agrees(after, node, gs) {
      var i :| i in after && after[i].node == node && !RowAgrees(after[i], gs);
      RowAgreesIff(rows, node, tenant, gs, ids, i);
    }
  }

  lemma CollidingRowStays(rows: Rows, node: Id, tenant: Id, gs: seq<Resource>, ids: seq<Id>)
    requires UniqueRows(rows) && |ids| == |gs| && Fresh(rows, ids) && gs != []
    ensures var after := Reported(rows, node, tenant, gs, ids);
      forall i | CollidesAt(rows, i, node, gs) :: i in after && after[i].node == node
  {
    UpsertAllExtends(rows, node, tenant, gs, ids);
  }

  /** Vendors without a colon never collide: equal keys then name the same vendor and UUID. */
  lemma ColonFreeNeverCollides(rows: Rows, node: Id, gs: seq<Resource>)
    requires DistinctUuids(gs)
    requires forall i | i in rows && rows[i].node == node :: ':' !in rows[i].gpu.vendor.chars
    requires forall k | 0 <= k < |gs| :: ':' !in gs[k].vendor.chars
    ensures forall i :: !CollidesAt(rows, i, node, gs)
  {
    if i :| CollidesAt(rows, i, node, gs) {
      LooksReportedIff(rows[i], gs);
      var g :| g in gs && ReportKey(g) == StoredKey(rows[i]);
      SplitAt(g.vendor.chars, g.uuid.chars, rows[i].gpu.vendor.chars, rows[i].gpu.uuid.chars, ':');
    }
  }

  /** A GPU without a UUID is stored, but the same report marks its row unavailable. */
  lemma EmptyUuidIsMarked(s: State, node: Id, gs: seq<Resource>, ids: seq<Id>, i: Id)
    requires Valid(s) && Allowed(s, ReportGpus(node, gs, ids)) && node in s.nodes && gs != []
    requires forall k | 0 <= k < |gs| :: ':' !in gs[k].vendor.chars
    requires forall j | j in s.rows && s.rows[j].node == node :: ':' !in s.rows[j].gpu.vendor.chars
    requires var after := Apply(s, ReportGpus(node, gs, ids)).rows; i in after && IsRowOf(after[i], node, NO_TEXT)
    ensures Apply(s, ReportGpus(node, gs, ids)).rows[i].gpu.status == UNAVAILABLE
  {
    var tenant := s.nodes[node];
    var mid := UpsertAll(s.rows, node, tenant, gs, ids);
    UpsertAllVendors(s.rows, node, tenant, gs, ids, i);
    if StoredKey(mid[i]) in ReportKeys(gs) {
      var g :| g in gs && ReportKey(g) == StoredKey(mid[i]);
      var ident := if g.uuid != NO_TEXT then g.uuid.chars else PrintIndex(g.index);
      SplitAt(g.vendor.chars, ident, mid[i].gpu.vendor.chars, "", ':');
      IndexPrints(g.index);
    }
  }

  lemma IndexPrints(i: int)
    ensures PrintIndex(i) != ""
  {
    if i > 0 {
      DigitsLead(i);
    }
  }

  lemma {:induction false} UpsertAllVendors(rows: Rows, node: Id, tenant: Id, gs: seq<Resource>, ids: seq<Id>, i: Id)
    requires |ids| == |gs| && i in UpsertAll(rows, node, tenant, gs, ids) && UpsertAll(rows, node, tenant, gs, ids)[i].node == node
    requires forall k | 0 <= k < |gs| :: ':' !in gs[k].vendor.chars
    requires forall j | j in rows && rows[j].node == node :: ':' !in rows[j].gpu.vendor.chars
    ensures ':' !in UpsertAll(rows, node, tenant, gs, ids)[i].gpu.vendor.chars
  {
    if gs != [] {
      var n := |gs| - 1;
      var mid := UpsertAll(rows, node, tenant, gs[..n], ids[..n]);
      if i in mid && mid[i].node == node {
        UpsertAllVendors(rows, node, tenant, gs[..n], ids[..n], i);
      }
    }
  }

  // ------------------------------------------------------------------------------------------
  // A GPU that disappears without being noticed
  // ------------------------------------------------------------------------------------------

  function Gpu(vendor: string, uuid: string): Resource {
    Resource(Text(vendor), 0, Text(uuid), NO_TEXT, NO_TEXT, NO_TEXT, 1, 0, 1, NoReadings, NO_TEXT, AVAILABLE, 0)
  }

  lemma RunNext(events: seq<Event>, e: Event)
    requires Legal(Initial, events) && Allowed(Run(Initial, events), e)
    ensures Run(Initial, events + [e]) == Apply(Run(Initial, events), e) && Legal(Initial, events + [e])
  {
    var all := events + [e];
    assert all[..|events|] == events;
    forall k | 0 <= k < |all|
      ensures Allowed(Run(Initial, all[..k]), all[k])
    {
      if k < |events| {
        assert all[..k] == events[..k] && all[k] == events[k];
      }
    }
  }

  lemma NothingMarked(rows: Rows, node: Id, keys: set<Text>)
    requires forall i | i in rows :: StoredKey(rows[i]) in keys
    ensures MarkMissing(rows, node, keys) == rows
  {
    SameMap(MarkMissing(rows, node, keys), rows);
  }

  /** A new GPU is reported alone, and every row has its key. */
  lemma OneGpuReported(rows: Rows, node: Id, tenant: Id, g: Resource, id: Id)
    requires !HasRow(rows, node, g.uuid) && (forall i | i in rows :: StoredKey(rows[i]) == ReportKey(g))
    requires StoredKey(Row(node, tenant, Stored(g))) == ReportKey(g)
    ensures Reported(rows, node, tenant, [g], [id]) == rows[id := Row(node, tenant, Stored(g))]
  {
    assert [g][..0] == [] && [id][..0] == [];
    assert UpsertAll(rows, node, tenant, [g][..0], [id][..0]) == rows;
    assert g in [g] && ReportKey(g) in ReportKeys([g]);
    NothingMarked(rows[id := Row(node, tenant, Stored(g))], node, ReportKeys([g]));
  }

  lemma SameKeys()
    ensures ReportKey(Gpu("a", "b:c")) == ReportKey(Gpu("a:b", "c")) && Gpu("a", "b:c").uuid != Gpu("a:b", "c").uuid
    ensures StoredKey(Row(1, DEFAULT_TENANT, Gpu("a:b", "c"))) == ReportKey(Gpu("a", "b:c"))
    ensures StoredKey(Row(1, DEFAULT_TENANT, Gpu("a", "b:c"))) == ReportKey(Gpu("a", "b:c"))
  {
    assert "a:b" + (":" + "c") == "a" + (":" + "b:c");
    assert |"b:c"| != |"c"|;
  }

  lemma GpuReported(events: seq<Event>, rows: Rows, g: Resource, id: Id)
    requires Legal(Initial, events) && Run(Initial, events) == State(map[1 := DEFAULT_TENANT], rows) && id !in rows && Stored(g) == g
    requires !HasRow(rows, 1, g.uuid) && (forall i | i in rows :: StoredKey(rows[i]) == ReportKey(g))
    requires StoredKey(Row(1, DEFAULT_TENANT, g)) == ReportKey(g)
    ensures var all := events + [ReportGpus(1, [g], [id])];
      Legal(Initial, all) && Run(Initial, all) == State(map[1 := DEFAULT_TENANT], rows[id := Row(1, DEFAULT_TENANT, g)])
  {
    OneGpuReported(rows, 1, DEFAULT_TENANT, g, id);
    RunNext(events, ReportGpus(1, [g], [id]));
  }

  /** The report of a GPU whose vendor and UUID join to the same key hides that the first GPU is gone. */
  lemma HiddenRemoval() returns (events: seq<Event>)
    ensures Legal(Initial, events + [ReportGpus(1, [Gpu("a", "b:c")], [11])])
    ensures var z := Run(Initial, events + [ReportGpus(1, [Gpu("a", "b:c")], [11])]);
      10 in z.rows && z.rows[10] == Row(1, DEFAULT_TENANT, Gpu("a:b", "c"))
  {
    var gone, left := Gpu("a:b", "c"), Gpu("a", "b:c");
    SameKeys();
    RunNext([], Register(1));
    events := [] + [Register(1)];
    GpuReported(events, map[], gone, 10);
    events := events + [ReportGpus(1, [gone], [10])];
    GpuReported(events, map[10 := Row(1, DEFAULT_TENANT, gone)], left, 11);
  }

  // ------------------------------------------------------------------------------------------
  // The handlers
  // ------------------------------------------------------------------------------------------

  lemma UpdateOne(rows: Rows, node: Id, tenant: Id, g: Resource, id: Id, i: Id)
    requires UniqueRows(rows) && i in rows && IsRowOf(rows[i], node, g.uuid)
    ensures Upsert(rows, node, tenant, g, id) == rows[i := UpdateRow(rows[i], g)]
  {
    assert HasRow(rows, node, g.uuid);
    forall j | j in rows
      ensures Upsert(rows, node, tenant, g, id)[j] == rows[i := UpdateRow(rows[i], g)][j]
    {
    }
    SameMap(Upsert(rows, node, tenant, g, id), rows[i := UpdateRow(rows[i], g)]);
  }

  lemma UpsertAllNext(rows: Rows, node: Id, tenant: Id, gs: seq<Resource>, ids: seq<Id>, k: nat)
    requires |ids| == |gs| && k < |gs|
    ensures UpsertAll(rows, node, tenant, gs[..k + 1], ids[..k + 1])
            == Upsert(UpsertAll(rows, node, tenant, gs[..k], ids[..k]), node, tenant, gs[k], ids[k])
    ensures ReportKeys(gs[..k + 1]) == ReportKeys(gs[..k]) + {ReportKey(gs[k])}
  {
    assert gs[..k + 1][..k] == gs[..k] && ids[..k + 1][..k] == ids[..k];
    assert gs[..k + 1] == gs[..k] + [gs[k]];
  }

  function Unavailable(r: Row): Row {
    r.(gpu := r.gpu.(status := UNAVAILABLE))
  }

  /** The rows still to visit are as they were; the others are as the marking leaves them. */
  ghost predicate MarkedSoFar(before: Rows, rows: Rows, node: Id, reported: set<Text>, left: set<Id>) {
    && rows.Keys == before.Keys && left <= before.Keys
    && (forall i | i in left :: rows[i] == before[i] && rows[i].node == node && rows[i].gpu.status != UNAVAILABLE)
    && (forall i | i in rows && i !in left :: rows[i] == MarkMissing(before, node, reported)[i])
  }

  lemma SameUuids(before: Rows, rows: Rows, node: Id, reported: set<Text>, left: set<Id>)
    requires MarkedSoFar(before, rows, node, reported, left)
    ensures forall i | i in rows :: rows[i].node == before[i].node && rows[i].gpu.uuid == before[i].gpu.uuid
  {
  }

  /** The UPDATE for one row touches no other: a node and a UUID have one row. */
  lemma OneRowMarked(before: Rows, rows: Rows, after: Rows, node: Id, reported: set<Text>, left: set<Id>, i: Id)
    requires UniqueRows(before) && MarkedSoFar(before, rows, node, reported, left) && i in left && StoredKey(rows[i]) !in reported
    requires after.Keys == rows.Keys
    requires forall j | j in after :: after[j] == if IsRowOf(rows[j], node, rows[i].gpu.uuid) then Unavailable(rows[j]) else rows[j]
    ensures MarkedSoFar(before, after, node, reported, left - {i})
  {
    SameUuids(before, rows, node, reported, left);
    forall j | j in after
      ensures after[j] == if j == i then Unavailable(before[i]) else rows[j]
    {
      assert IsRowOf(rows[j], node, rows[i].gpu.uuid) ==> j == i;
    }
  }

  class GpuInventory {
    var nodes: map<Id, Id>
    var rows: Rows

    ghost function Model(): State
      reads this
    {
      State(nodes, rows)
    }

    constructor ()
      ensures Model() == Initial
    {
      nodes, rows := map[], map[];
    }

    method HandleRegister(node: Id)
      modifies this
      ensures Model() == Apply(old(Model()), Register(node))
    {
      if node !in nodes {
        nodes := nodes[node := DEFAULT_TENANT];
      }
    }

    method UpsertGpu(node: Id, g: Resource, id: Id, ghost tenant: Id)
      requires UniqueRows(rows) && id !in rows && node in nodes && tenant == OwnerOf(nodes[node])
      modifies this`rows
      ensures rows == Upsert(old(rows), node, tenant, g, id)
    {
      var stored := Stored(g);
      if i :| i in rows && rows[i].node == node && rows[i].gpu.uuid == g.uuid {
        UpdateOne(rows, node, tenant, g, id, i);
        rows := rows[i := rows[i].(gpu := stored.(pciBusId := rows[i].gpu.pciBusId))];
      } else {
        var owner := DEFAULT_TENANT;
        if nodes[node] != NO_TENANT {
          owner := nodes[node];
        }
        rows := rows[id := Row(node, owner, stored)];
      }
    }

    method MarkGpu(node: Id, uuid: Text)
      modifies this`rows
      ensures rows.Keys == old(rows).Keys
      ensures forall j | j in rows ::
                rows[j] == if IsRowOf(old(rows)[j], node, uuid) then Unavailable(old(rows)[j]) else old(rows)[j]
    {
      rows := map j | j in rows ::
        if IsRowOf(rows[j], node, uuid) then rows[j].(gpu := rows[j].gpu.(status := UNAVAILABLE)) else rows[j];
    }

    /** Marks the rows one after the other; each UPDATE names a node and a UUID. */
    method MarkDisappeared(node: Id, reported: set<Text>)
      requires UniqueRows(rows)
      modifies this`rows
      ensures rows == MarkMissing(old(rows), node, reported)
    {
      var left := set i | i in rows && rows[i].node == node && rows[i].gpu.status != UNAVAILABLE;
      while left != {}
        invariant MarkedSoFar(old(rows), rows, node, reported, left)
        decreases left
      {
        assert (forall i :: i !in left) ==> left == {};
        var i :| i in left;
        if StoredKey(rows[i]) !in reported {
          ghost var before := rows;
          MarkGpu(node, rows[i].gpu.uuid);
          OneRowMarked(old(rows), before, rows, node, reported, left, i);
        }
        left := left - {i};
      }
      SameMap(rows, MarkMissing(old(rows), node, reported));
    }

    method HandleResourceReport(node: Id, gpus: seq<Resource>, ids: seq<Id>) returns (ok: bool)
      requires Valid(Model()) && Allowed(Model(), ReportGpus(node, gpus, ids))
      modifies this`rows
      ensures ok == (node in nodes)
      ensures Model() == Apply(old(Model()), ReportGpus(node, gpus, ids))
    {
      if node !in nodes {
        return false;
      }
      ghost var tenant := OwnerOf(nodes[node]);
      var reported: set<Text> := {};
      for k := 0 to |gpus|
        invariant rows == UpsertAll(old(rows), node, tenant, gpus[..k], ids[..k]) && UniqueRows(rows)
        invariant forall j | k <= j < |ids| :: ids[j] !in rows
        invariant reported == ReportKeys(gpus[..k])
      {
        UpsertAllNext(old(rows), node, tenant, gpus, ids, k);
        UpsertRows(rows, node, tenant, gpus[k], ids[k]);
        reported := reported + {ReportKey(gpus[k])};
        UpsertGpu(node, gpus[k], ids[k], tenant);
      }
      assert gpus[..|gpus|] == gpus && ids[..|gpus|] == ids;
      if |gpus| > 0 {
        MarkDisappeared(node, reported);
      }
      ok := true;
    }

    method MarkStaleGPUs(node: Id, stale: set<Id>)
      modifies this`rows
      ensures Model() == Apply(old(Model()), MarkStale(node, stale))
    {
      rows := map i | i in rows ::
        if rows[i].node == node && i in stale then rows[i].(gpu := rows[i].gpu.(status := UNAVAILABLE)) else rows[i];
    }

    method HandlePatchNodeTenant(node: Id, tenant: Id, permitted: bool, activeLeases: nat, activeInstances: nat) returns (ok: bool)
      modifies this
      ensures Model() == Apply(old(Model()), Transfer(node, tenant, permitted, activeLeases, activeInstances))
    {
      if tenant == NO_TENANT || node !in nodes || !permitted {
        return false;
      }
      if activeLeases > 0 || activeInstances > 0 {
        return false;
      }
      nodes := nodes[node := tenant];
      rows := map i | i in rows :: if rows[i].node == node then rows[i].(tenant := tenant) else rows[i];
      ok := true;
    }
  }
}
