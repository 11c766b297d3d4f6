/**
 Node backend runtimes and their readiness. Several handlers write the one status column; a row may be
 deployed only while a check of it stands. A check reads the row, asks the agent for a while, and writes
 what it found whatever the row has become, so it is two steps here.
 */
module Readiness {
  import opened Results
  import ConfigSet
  import opened DeploymentSettings

  type Id = int

  datatype Status =
    | Ready | ReadyWithWarnings | NeedsCheck | Disabled | AgentUnreachable | DockerError | EvidenceMissing
    | MissingImage | InspectFailed | Mismatch | NodeOffline | UnsupportedDevice | TemplateOnly

  datatype Row = Row(node: Id, runtime: Id, imageRef: Image, config: Config,
                     imagePresent: bool, dockerAvailable: bool, status: Status)

  datatype Deployment = Deployment(source: Id, config: Config)

  /** A check under way: the row it will write to, and the image it asks the agent about. */
  datatype Inquiry = Inquiry(row: Id, image: Image)

  /** Runtime templates are known by their image. */
  datatype State = State(templates: map<Id, Image>, rows: map<Id, Row>, deployments: map<Id, Deployment>, checks: map<Id, Inquiry>)

  const Initial := State(map[], map[], map[], map[])

  // ------------------------------------------------------------------------------------------
  // Decisions
  // ------------------------------------------------------------------------------------------

  predicate Deployable(st: Status) {
    st == Ready || st == ReadyWithWarnings
  }

  /** How ImageInspect answers: any answer but an image or a clear "not found" is a failure. */
  datatype InspectAnswer = ImageFound | ImageNotFound | NoAnswer

  datatype BackendMatch = ConfirmedMismatch | DoubtfulMatch | OtherMatch

  /** What a check meets on the node: the addresses the server has, and what the agent answers. */
  datatype Probe = Probe(hasAddress: bool, port: int, hasClient: bool, listAnswered: bool, listHasImage: bool,
                         inspect: InspectAnswer, backendMatch: BackendMatch)

  datatype ListError = NoListError | NoAddress | NoClient | Unreachable

  datatype Finding = Finding(imagePresent: bool, dockerAvailable: bool, listError: ListError,
                             inspectSuccess: bool, inspectNotFound: bool)

  predicate Addressed(p: Probe) {
    p.hasAddress && p.port != 0
  }

  predicate InspectAsked(p: Probe, image: Image) {
    p.hasAddress && p.port > 0 && image != NO_IMAGE && p.hasClient
  }

  /** The two levels of evidence: the image list, and ImageInspect, which alone decides existence. */
  function Find(p: Probe, image: Image): Finding {
    var listError := if !Addressed(p) then NoAddress else if !p.hasClient then NoClient
                     else if !p.listAnswered then Unreachable else NoListError;
    var inspectSuccess := InspectAsked(p, image) && p.inspect == ImageFound;
    Finding((listError == NoListError && image != NO_IMAGE && p.listHasImage) || inspectSuccess,
            listError == NoListError, listError, inspectSuccess, InspectAsked(p, image) && p.inspect == ImageNotFound)
  }

  function EvaluateProbe(p: Probe, image: Image, f: Finding): Status {
    if !Addressed(p) then AgentUnreachable
    else if !f.dockerAvailable && f.listError != NoListError then
      if f.listError == Unreachable then AgentUnreachable else DockerError
    else if image == NO_IMAGE then EvidenceMissing
    else if f.inspectNotFound then MissingImage
    else if !f.inspectSuccess then InspectFailed
    else if p.backendMatch == ConfirmedMismatch then Mismatch
    else if p.backendMatch == DoubtfulMatch then ReadyWithWarnings
    else Ready
  }

  /** What the server itself knows of a node when a runtime is enabled on it. */
  datatype NodeView = NodeView(online: bool, templateOnly: bool, cpu: bool, hasVendorGpu: bool)

  function EnableStatus(v: NodeView): Status {
    if !v.online then NodeOffline
    else if v.templateOnly then TemplateOnly
    else if !v.cpu && !v.hasVendorGpu then UnsupportedDevice
    else NeedsCheck
  }

  // ------------------------------------------------------------------------------------------
  // Steps
  // ------------------------------------------------------------------------------------------

  /** The body of a PATCH, as far as it touches readiness. */
  datatype Patch = Patch(claimsEvidence: bool, blankName: bool, imageRef: Option<Image>, imageFacts: bool,
                         configSet: Option<Config>, configSetJson: Option<Config>, disable: bool)

  datatype Event =
    | SetTemplate(runtime: Id, image: Image)
    | DeleteTemplate(runtime: Id)
    | Enable(node: Id, runtime: Id, id: Id, imageRef: Option<Image>, config: Option<Config>, view: NodeView)
    | BeginCheck(check: Id, node: Id, id: Id)
    | FinishCheck(check: Id, probe: Probe)
    | PatchRow(id: Id, patch: Patch)
    | EditConfig(id: Id, text: Config)
    | DeleteRow(id: Id, activeInstances: bool)
    | CreateDeployment(deployment: Id, id: Id, otherChecks: bool, request: Request)
    | ChangeDeployment(deployment: Id, settings: Config)
    | DeleteDeployment(deployment: Id)

  function EffectiveImage(s: State, r: Row): Image
    requires r.runtime in s.templates
  {
    if r.imageRef == NO_IMAGE then s.templates[r.runtime] else r.imageRef
  }

  predicate CheckAccepted(s: State, check: Id, node: Id, id: Id) {
    check !in s.checks && id in s.rows && s.rows[id].node == node && s.rows[id].runtime in s.templates
  }

  function Checked(r: Row, p: Probe, image: Image): Row {
    var f := Find(p, image);
    r.(imagePresent := f.imagePresent, dockerAvailable := f.dockerAvailable, status := EvaluateProbe(p, image, f))
  }

  predicate Recheck(p: Patch) {
    p.imageRef.Some? || p.imageFacts || p.configSet.Some? || p.configSetJson.Some?
  }

  function Patched(r: Row, p: Patch): Row {
    r.(imageRef := p.imageRef.GetOr(r.imageRef),
       config := p.configSetJson.GetOr(p.configSet.GetOr(r.config)),
       status := if p.disable then Disabled else if Recheck(p) then NeedsCheck else r.status)
  }

  /** The UPDATE at the end of a check goes by the id of the row alone. */
  function FinishStep(s: State, check: Id, p: Probe): State {
    if check in s.checks then
      var q := s.checks[check];
      s.(checks := s.checks - {check},
         rows := if q.row in s.rows then s.rows[q.row := Checked(s.rows[q.row], p, q.image)] else s.rows)
    else s
  }

  predicate Enabled(s: State, node: Id, runtime: Id) {
    exists i | i in s.rows :: s.rows[i].node == node && s.rows[i].runtime == runtime
  }

  function EnableStep(s: State, node: Id, runtime: Id, id: Id, imageRef: Option<Image>, config: Option<Config>, view: NodeView): State {
    if runtime !in s.templates then s
    else if Enabled(s, node, runtime) then
      s.(rows := map i | i in s.rows ::
         if s.rows[i].node == node && s.rows[i].runtime == runtime
         then s.rows[i].(imagePresent := false, dockerAvailable := false, status := EnableStatus(view)) else s.rows[i])
    else if config == None || id in s.rows then s
    else s.(rows := s.rows[id := Row(node, runtime, imageRef.GetOr(s.templates[runtime]), config.value, false, false, EnableStatus(view))])
  }

  predicate Referenced(s: State, id: Id) {
    exists d | d in s.deployments :: s.deployments[d].source == id
  }

  predicate CreateAccepted(s: State, d: Id, id: Id, otherChecks: bool) {
    id in s.rows && Deployable(s.rows[id].status) && s.rows[id].config != NO_CONFIG && otherChecks && d !in s.deployments
  }

  function Apply(s: State, e: Event): State {
    match e
    case SetTemplate(runtime, image) => s.(templates := s.templates[runtime := image])
    case DeleteTemplate(runtime) =>
      // The foreign key of the rows refuses the delete while one refers to the template.
      if exists i | i in s.rows :: s.rows[i].runtime == runtime then s else s.(templates := s.templates - {runtime})
    case Enable(node, runtime, id, imageRef, config, view) => EnableStep(s, node, runtime, id, imageRef, config, view)
    case BeginCheck(check, node, id) =>
      if CheckAccepted(s, check, node, id) then s.(checks := s.checks[check := Inquiry(id, EffectiveImage(s, s.rows[id]))]) else s
    case FinishCheck(check, probe) => FinishStep(s, check, probe)
    case PatchRow(id, patch) =>
      if id in s.rows && !patch.claimsEvidence && !patch.blankName then s.(rows := s.rows[id := Patched(s.rows[id], patch)]) else s
    case EditConfig(id, text) =>
      if id in s.rows then s.(rows := s.rows[id := s.rows[id].(config := text, status := NeedsCheck)]) else s
    case DeleteRow(id, activeInstances) =>
      if id !in s.rows || Referenced(s, id) || activeInstances then s else s.(rows := s.rows - {id})
    case CreateDeployment(d, id, otherChecks, q) =>
      if CreateAccepted(s, d, id, otherChecks) then
        s.(deployments := s.deployments[d := Deployment(id, Stored(s.rows[id].config, s.rows[id].imageRef, d, q))])
      else s
    case ChangeDeployment(d, config) =>
      // A patch with overrides, an edit of the configuration, or a synchronisation with the template.
      if d in s.deployments then s.(deployments := s.deployments[d := s.deployments[d].(config := config)]) else s
    case DeleteDeployment(d) => s.(deployments := s.deployments - {d})
  }

  function Run(events: seq<Event>): State {
    if events == [] then Initial else Apply(Run(events[..|events| - 1]), events[|events| - 1])
  }

  // ------------------------------------------------------------------------------------------
  // Invariants
  // ------------------------------------------------------------------------------------------

  ghost predicate ValidRows(templates: map<Id, Image>, rows: map<Id, Row>) {
    && (forall i | i in rows :: rows[i].runtime in templates)
    && (forall i, j | i in rows && j in rows :: i == j || rows[i].node != rows[j].node || rows[i].runtime != rows[j].runtime)
    && (forall i | i in rows && Deployable(rows[i].status) :: rows[i].imagePresent && rows[i].dockerAvailable)
  }

  ghost predicate Valid(s: State) {
    ValidRows(s.templates, s.rows) && forall d | d in s.deployments :: s.deployments[d].source in s.rows
  }

  /** The list was answered, ImageInspect found the image, and no mismatch of the backend was confirmed. */
  predicate Confirms(p: Probe, image: Image) {
    InspectAsked(p, image) && p.inspect == ImageFound && p.listAnswered && p.backendMatch != ConfirmedMismatch
  }

  /** A check leaves a row deployable only if ImageInspect found the image and no mismatch was confirmed. */
  lemma CheckDecides(r: Row, p: Probe, image: Image)
    ensures Deployable(Checked(r, p, image).status) <==> Confirms(p, image)
    ensures Checked(r, p, image).status == MissingImage <==>
            InspectAsked(p, image) && p.inspect == ImageNotFound && p.listAnswered
    ensures Deployable(Checked(r, p, image).status) ==> Checked(r, p, image).imagePresent && Checked(r, p, image).dockerAvailable
  {
  }

  lemma UpdateKeepsValid(templates: map<Id, Image>, rows: map<Id, Row>, id: Id, row: Row)
    requires ValidRows(templates, rows) && id in rows && row.node == rows[id].node && row.runtime == rows[id].runtime
    requires Deployable(row.status) ==> row.imagePresent && row.dockerAvailable
    ensures ValidRows(templates, rows[id := row])
  {
  }

  lemma FinishKeepsValid(s: State, check: Id, p: Probe)
    requires Valid(s)
    ensures Valid(FinishStep(s, check, p))
  {
    if check in s.checks && s.checks[check].row in s.rows {
      var q := s.checks[check];
      CheckDecides(s.rows[q.row], p, q.image);
      UpdateKeepsValid(s.templates, s.rows, q.row, Checked(s.rows[q.row], p, q.image));
    }
  }

  lemma EnableKeepsValid(s: State, node: Id, runtime: Id, id: Id, imageRef: Option<Image>, config: Option<Config>, view: NodeView)
    requires Valid(s)
    ensures Valid(EnableStep(s, node, runtime, id, imageRef, config, view))
  {
  }

  lemma StepKeepsValid(s: State, e: Event)
    requires Valid(s)
    ensures Valid(Apply(s, e))
  {
    match e
    case FinishCheck(check, p) => FinishKeepsValid(s, check, p);
    case Enable(node, runtime, id, imageRef, config, view) => EnableKeepsValid(s, node, runtime, id, imageRef, config, view);
    case PatchRow(id, patch) =>
      if id in s.rows {
        UpdateKeepsValid(s.templates, s.rows, id, Patched(s.rows[id], patch));
      }
    case EditConfig(id, text) =>
      if id in s.rows {
        UpdateKeepsValid(s.templates, s.rows, id, s.rows[id].(config := text, status := NeedsCheck));
      }
    case _ =>
  }

  lemma {:induction false} RunIsValid(events: seq<Event>)
    ensures Valid(Run(events))
  {
    if events != [] {
      RunIsValid(events[..|events| - 1]);
      StepKeepsValid(Run(events[..|events| - 1]), events[|events| - 1]);
    }
  }

  // ------------------------------------------------------------------------------------------
  // What one step does to readiness
  // ------------------------------------------------------------------------------------------

  /** The event ends a check of the row for which ImageInspect found the image asked about. */
  ghost predicate Confirming(s: State, e: Event, id: Id) {
    && id in s.rows && e.FinishCheck? && e.check in s.checks && s.checks[e.check].row == id
    && Confirms(e.probe, s.checks[e.check].image)
  }

  /** What takes readiness away: a check that does not confirm, a disabling or source-changing patch, an edit, an enable. */
  ghost predicate Invalidates(s: State, e: Event, id: Id)
    requires id in s.rows
  {
    match e
    case FinishCheck(check, _) => check in s.checks && s.checks[check].row == id && !Confirming(s, e, id)
    case PatchRow(i, p) => i == id && !p.claimsEvidence && !p.blankName && (p.disable || Recheck(p))
    case EditConfig(i, _) => i == id
    case Enable(node, runtime, _, _, _, _) => s.rows[id].node == node && s.rows[id].runtime == runtime
    case _ => false
  }

  ghost predicate SameSource(s: State, t: State, id: Id) {
    id in s.rows && id in t.rows && s.rows[id].imageRef == t.rows[id].imageRef && s.rows[id].config == t.rows[id].config
  }

  /** A row is deployable after a step if the step confirmed it, or it was and the step does not invalidate it. */
  lemma ReadinessStep(s: State, e: Event, id: Id)
    requires Valid(s) && id in s.rows && id in Apply(s, e).rows
    ensures Deployable(Apply(s, e).rows[id].status) <==>
            Confirming(s, e, id) || (Deployable(s.rows[id].status) && !Invalidates(s, e, id))
  {
    if e.FinishCheck? && e.check in s.checks && s.checks[e.check].row == id {
      CheckDecides(s.rows[id], e.probe, s.checks[e.check].image);
    }
  }

  /** A deployable row was deployable before the step with the same image and configuration, or the step confirmed it. */
  lemma DeployableStep(s: State, e: Event, id: Id)
    requires id in Apply(s, e).rows && Deployable(Apply(s, e).rows[id].status)
    ensures SameSource(s, Apply(s, e), id)
    ensures Confirming(s, e, id) || Deployable(s.rows[id].status)
  {
    match e
    case FinishCheck(check, p) =>
      if check in s.checks && s.checks[check].row == id && id in s.rows {
        CheckDecides(s.rows[id], p, s.checks[check].image);
      }
    case _ =>
  }

  // ------------------------------------------------------------------------------------------
  // The handlers
  // ------------------------------------------------------------------------------------------

  class NodeRuntimes {
    var templates: map<Id, Image>
    var rows: map<Id, Row>
    var deployments: map<Id, Deployment>
    var checks: map<Id, Inquiry>

    ghost function Model(): State
      reads this
    {
      State(templates, rows, deployments, checks)
    }

    constructor ()
      ensures Model() == Initial
    {
      templates, rows, deployments, checks := map[], map[], map[], map[];
    }

    method HandleDeleteTemplate(runtime: Id) returns (ok: bool)
      modifies this
      ensures Model() == Apply(old(Model()), DeleteTemplate(runtime))
    {
      if i :| i in rows && rows[i].runtime == runtime {
        return false;
      }
      templates := templates - {runtime};
      ok := true;
    }

    method HandleEnable(node: Id, runtime: Id, id: Id, imageRef: Option<Image>, config: Option<Config>, view: NodeView)
      returns (ok: bool)
      modifies this
      ensures Model() == Apply(old(Model()), Enable(node, runtime, id, imageRef, config, view))
    {
      if runtime !in templates {
        return false;
      }
      var status := NeedsCheck;
      if !view.online {
        status := NodeOffline;
      } else if view.templateOnly {
        status := TemplateOnly;
      } else if !view.cpu && !view.hasVendorGpu {
        status := UnsupportedDevice;
      }
      if Enabled(State(templates, rows, deployments, checks), node, runtime) {
        rows := map i | i in rows ::
          if rows[i].node == node && rows[i].runtime == runtime
          then rows[i].(imagePresent := false, dockerAvailable := false, status := status) else rows[i];
        return true;
      }
      if config == None || id in rows {
        return false;
      }
      var image := if imageRef.Some? then imageRef.value else templates[runtime];
      rows := rows[id := Row(node, runtime, image, config.value, false, false, status)];
      ok := true;
    }

    /** Reads the row and its template before the agent is asked. */
    method BeginCheck(check: Id, node: Id, id: Id) returns (ok: bool)
      requires check !in checks
      modifies this
      ensures Model() == Apply(old(Model()), Event.BeginCheck(check, node, id))
    {
      if id !in rows || rows[id].node != node || rows[id].runtime !in templates {
        return false;
      }
      var image := rows[id].imageRef;
      if image == NO_IMAGE {
        image := templates[rows[id].runtime];
      }
      checks := checks[check := Inquiry(id, image)];
      ok := true;
    }

    /** The levels of the check one after the other, then one UPDATE by id. */
    method FinishCheck(check: Id, probe: Probe)
      requires check in checks
      modifies this
      ensures Model() == Apply(old(Model()), Event.FinishCheck(check, probe))
    {
      var id, image := checks[check].row, checks[check].image;
      checks := checks - {check};
      var dockerAvailable, imagePresent, inspectSuccess, inspectNotFound := false, false, false, false;
      var listError := NoListError;
      if !probe.hasAddress || probe.port == 0 {
        listError := NoAddress;
      } else if !probe.hasClient {
        listError := NoClient;
      } else if !probe.listAnswered {
        listError := Unreachable;
      } else {
        dockerAvailable := true;
        if image != NO_IMAGE && probe.listHasImage {
          imagePresent := true;
        }
      }
      if probe.hasAddress && probe.port > 0 && image != NO_IMAGE && probe.hasClient {
        match probe.inspect
        case ImageFound => inspectSuccess, imagePresent := true, true;
        case ImageNotFound => inspectNotFound := true;
        case NoAnswer =>
      }
      var status := EvaluateProbe(probe, image, Finding(imagePresent, dockerAvailable, listError, inspectSuccess, inspectNotFound));
      if id in rows {
        rows := rows[id := rows[id].(imagePresent := imagePresent, dockerAvailable := dockerAvailable, status := status)];
      }
    }

    /** Collects the assignments of one UPDATE, and whether they ask for a new check. */
    method HandlePatch(id: Id, patch: Patch) returns (ok: bool)
      modifies this
      ensures Model() == Apply(old(Model()), PatchRow(id, patch))
    {
      if id !in rows || patch.claimsEvidence || patch.blankName {
        return false;
      }
      var row := rows[id];
      var needsRecheck := patch.imageFacts;
      if patch.imageRef.Some? {
        row := row.(imageRef := patch.imageRef.value);
        needsRecheck := true;
      }
      if patch.configSet.Some? {
        row := row.(config := patch.configSet.value);
        needsRecheck := true;
      }
      if patch.configSetJson.Some? {
        row := row.(config := patch.configSetJson.value);
        needsRecheck := true;
      }
      if patch.disable {
        row := row.(status := Disabled);
        needsRecheck := false;
      }
      if needsRecheck {
        row := row.(status := NeedsCheck);
      }
      rows := rows[id := row];
      ok := true;
    }

    method UpdateConfigEditObject(id: Id, text: Config)
      modifies this
      ensures Model() == Apply(old(Model()), EditConfig(id, text))
    {
      if id in rows {
        rows := rows[id := rows[id].(config := text, status := NeedsCheck)];
      }
    }

    method HandleDelete(id: Id, activeInstances: bool) returns (ok: bool)
      modifies this
      ensures Model() == Apply(old(Model()), DeleteRow(id, activeInstances))
    {
      if id !in rows {
        return false;
      }
      if d :| d in deployments && deployments[d].source == id {
        return false;
      }
      if activeInstances {
        return false;
      }
      rows := rows - {id};
      ok := true;
    }

    method InsertDeployment(d: Id, id: Id, settings: Config, ghost request: Request)
      requires CreateAccepted(Model(), d, id, true) && settings == Stored(rows[id].config, rows[id].imageRef, d, request)
      modifies this
      ensures Model() == Apply(old(Model()), CreateDeployment(d, id, true, request))
    {
      deployments := deployments[d := Deployment(id, settings)];
    }

    method HandleCreateDeployment(d: Id, id: Id, otherChecks: bool, overrides: ConfigSet.Members, edited: Option<Config>, compat: Compat,
        texts: ConfigSet.Texts)
      returns (ok: bool, ghost order: seq<ConfigSet.Name>, ghost request: Request)
      modifies this
      ensures ok == old(CreateAccepted(Model(), d, id, otherChecks))
      ensures Model() == Apply(old(Model()), CreateDeployment(d, id, otherChecks, request))
      ensures ok ==> ConfigSet.Visits(overrides, order) && request == Request(ConfigSet.OrderedWrites(overrides, order, texts), edited, compat, texts)
    {
      order, request := [], Request([], edited, compat, texts);
      if id !in rows || !Deployable(rows[id].status) || rows[id].config == NO_CONFIG || !otherChecks || d in deployments {
        return false, order, request;
      }
      var settings;
      settings, order := StoreSettings(rows[id].config, rows[id].imageRef, d, overrides, edited, compat, texts);
      request := Request(ConfigSet.OrderedWrites(overrides, order, texts), edited, compat, texts);
      InsertDeployment(d, id, settings, request);
      ok := true;
    }

    method ChangeDeployment(d: Id, config: Config)
      modifies this
      ensures Model() == Apply(old(Model()), Event.ChangeDeployment(d, config))
    {
      if d in deployments {
        deployments := deployments[d := deployments[d].(config := config)];
      }
    }
  }
}
